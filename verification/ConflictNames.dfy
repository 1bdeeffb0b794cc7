/** Names of Syncthing conflict copies (conflictOriginal in internal/api/folder_extras.go). */
module ConflictNames {
  const MARKER := ".sync-conflict-"

  /** s has t at position i. */
  predicate OccursAt(s: string, t: string, i: int) {
    0 <= i && i + |t| <= |s| && s[i..i + |t|] == t
  }

  /** strings.Index: the first position of t in s, or -1. */
  function Index(s: string, t: string): (r: int)
    ensures r >= 0 ==> OccursAt(s, t, r) && forall i :: 0 <= i < r ==> !OccursAt(s, t, i)
    ensures r < 0 ==> r == -1 && forall i :: !OccursAt(s, t, i)
  {
    if OccursAt(s, t, 0) then 0
    else if s == "" then -1
    else
      var r := Index(s[1..], t);
      assert forall i :: 1 <= i ==> (OccursAt(s, t, i) <==> OccursAt(s[1..], t, i - 1)) by {
        forall i | 1 <= i ensures OccursAt(s, t, i) <==> OccursAt(s[1..], t, i - 1) {
          if i + |t| <= |s| {
            SliceOfTail(s, i, i + |t|);
          }
        }
      }
      if r < 0 then -1 else r + 1
  }

  lemma SliceOfTail(s: string, i: int, j: int)
    requires 1 <= i <= j <= |s|
    ensures s[i..j] == s[1..][i - 1..j - 1]
  {
    forall k | 0 <= k < j - i ensures s[i..j][k] == s[1..][i - 1..j - 1][k] {
    }
  }

  /** strings.LastIndex for one character. */
  function LastIndexOf(s: string, c: char): (r: int)
    ensures -1 <= r < |s|
    ensures r >= 0 ==> s[r] == c
    ensures forall i :: r < i < |s| ==> s[i] != c
  {
    if s == "" then -1
    else if s[|s| - 1] == c then |s| - 1
    else LastIndexOf(s[..|s| - 1], c)
  }

  function ConflictOriginal(name: string): string {
    var idx := Index(name, MARKER);
    if idx < 0 then name else
    var base := name[..idx];
    var after := name[idx + |MARKER|..];
    var dotIdx := LastIndexOf(after, '.');
    if dotIdx >= 0 then base + after[dotIdx..] else base
  }

  predicate Contains(s: string, t: string) {
    Index(s, t) >= 0
  }

  /** Empty, or a dot followed by text without dots. */
  predicate IsExtension(ext: string) {
    ext == "" || (ext[0] == '.' && '.' !in ext[1..])
  }

  /** The marker cannot overlap itself: its only dot is its first character. Appending it to a base that does not
      contain it therefore puts its first occurrence right after the base. */
  lemma FirstMarker(base: string, rest: string)
    requires !Contains(base, MARKER)
    ensures Index(base + MARKER + rest, MARKER) == |base|
  {
    var name := base + MARKER + rest;
    assert name == base + (MARKER + rest);
    assert name[|base|..|base| + |MARKER|] == MARKER;
    assert OccursAt(name, MARKER, |base|);
    var r := Index(name, MARKER);
    if r < |base| && r + |MARKER| > |base| {
      OnlyFirstDot(|base| - r);
    }
    if r + |MARKER| <= |base| {
      WithinBase(base, MARKER + rest, r);
    }
  }

  lemma WithinBase(base: string, rest: string, i: int)
    requires OccursAt(base + rest, MARKER, i) && i + |MARKER| <= |base|
    ensures OccursAt(base, MARKER, i)
  {
    assert (base + rest)[i..i + |MARKER|] == base[i..i + |MARKER|];
  }

  lemma OnlyFirstDot(i: int)
    requires 0 < i < |MARKER|
    ensures MARKER[i] != '.'
  {
  }

  lemma LastDot(middle: string, ext: string)
    requires '.' !in ext[if ext == "" then 0 else 1..] && ext != "" && ext[0] == '.'
    ensures LastIndexOf(middle + ext, '.') == |middle|
  {
    var s := middle + ext;
    assert s[|middle|] == '.';
    assert forall i :: |middle| < i < |s| ==> s[i] == ext[1..][i - |middle| - 1];
  }

  /** A conflict copy's name gives back the original: for any base without the marker, any tag without dots and any
      extension. */
  lemma RoundTrip(base: string, tag: string, ext: string)
    requires !Contains(base, MARKER) && '.' !in tag && IsExtension(ext)
    ensures ConflictOriginal(base + MARKER + tag + ext) == base + ext
  {
    var name := base + MARKER + (tag + ext);
    assert base + MARKER + tag + ext == name;
    FirstMarker(base, tag + ext);
    assert name[..|base|] == base && name[|base| + |MARKER|..] == tag + ext;
    if ext != "" {
      LastDot(tag, ext);
      assert (tag + ext)[|tag|..] == ext;
    } else {
      assert tag + ext == tag;
      assert base + ext == base;
    }
  }

  /** What the function does to any name: one without the marker stays; otherwise everything from the first marker
      up to the last dot after it goes, or all the rest when no dot follows. */
  lemma EveryName(name: string) returns (base: string, middle: string, ext: string)
    ensures !Contains(name, MARKER) ==> ConflictOriginal(name) == name
    ensures Contains(name, MARKER) ==>
              && name == base + MARKER + middle + ext && ConflictOriginal(name) == base + ext
              && !Contains(base, MARKER) && IsExtension(ext) && (ext == "" ==> '.' !in middle)
  {
    base, middle, ext := "", "", "";
    if Contains(name, MARKER) {
      var idx := Index(name, MARKER);
      base := name[..idx];
      var after := name[idx + |MARKER|..];
      middle, ext := SplitExtension(after);
      BaseHasNoMarker(name);
      SplitAt(name, MARKER, idx);
      Regroup(base, MARKER, middle, ext);
      assert base + "" == base;
    }
  }

  lemma SplitAt(s: string, t: string, i: nat)
    requires OccursAt(s, t, i)
    ensures s == s[..i] + t + s[i + |t|..]
  {
  }

  lemma Regroup(a: string, b: string, c: string, d: string)
    ensures a + b + (c + d) == a + b + c + d
  {
  }

  lemma BaseHasNoMarker(name: string)
    requires Contains(name, MARKER)
    ensures !Contains(name[..Index(name, MARKER)], MARKER)
  {
    var idx := Index(name, MARKER);
    var base := name[..idx];
    forall b | OccursAt(base, MARKER, b) ensures OccursAt(name, MARKER, b) && b < idx {
      assert name[b..b + |MARKER|] == base[b..b + |MARKER|];
    }
  }

  lemma SplitExtension(after: string) returns (middle: string, ext: string)
    ensures after == middle + ext && IsExtension(ext) && (ext == "" ==> '.' !in middle)
    ensures ext == var dot := LastIndexOf(after, '.'); if dot >= 0 then after[dot..] else ""
  {
    var dot := LastIndexOf(after, '.');
    var cut := if dot >= 0 then dot else |after|;
    middle, ext := after[..cut], after[cut..];
    assert forall i :: 0 < i < |ext| ==> ext[i] == after[cut + i] != '.';
  }
}
