/** The decisions of the Android power gate (mobile/gate_decision.go): should Syncthing be running, and when does
    the sync session end. Times are nanoseconds; 0 is the zero time. SSIDs are ASCII. */
module GateDecision {
  const SECOND := 1_000_000_000
  const CONNECT_GRACE := 120 * SECOND
  const ACTIVE_SYNC_EXTEND := 300 * SECOND
  const SYNC_POLL_INTERVAL := 15 * SECOND
  const FOREGROUND_GRACE := 60 * SECOND

  datatype Settings = Settings(pauseWhenBatteryLow: bool, blockMeteredRoaming: bool, networkMode: string,
                               trustedSSIDs: seq<string>)

  datatype Network = Network(ssid: string, hasWifi: bool, hasMobile: bool, metered: bool, roaming: bool,
                             activeWifi: bool)

  /** Everything the decision reads. */
  datatype Inputs = Inputs(appForeground: bool, network: Network, batteryLow: bool, settings: Settings,
                           sessionEndsAt: int, foregroundUntil: int)

  /** One poll's view of Syncthing. */
  datatype Probe = Probe(folderBusy: bool, peerBehind: bool, connected: bool)

  function Fold(c: char): char {
    if 'A' <= c <= 'Z' then c + ('a' - 'A') else c
  }

  function FoldCase(s: string): (r: string)
    ensures |r| == |s| && forall i :: 0 <= i < |s| ==> r[i] == Fold(s[i])
  {
    seq(|s|, i requires 0 <= i < |s| => Fold(s[i]))
  }

  predicate NetworkAllowed(settings: Settings, n: Network) {
    if settings.blockMeteredRoaming && (n.roaming || (n.metered && n.activeWifi)) then false
    else if settings.networkMode == "any" then true
    else if settings.networkMode == "any_wifi" then n.hasWifi
    else if settings.networkMode == "trusted_wifi" then
      n.hasWifi && n.ssid != "" && exists s :: s in settings.trustedSSIDs && FoldCase(s) == FoldCase(n.ssid)
    else true
  }

  predicate BatteryAllowed(settings: Settings, batteryLow: bool) {
    !settings.pauseWhenBatteryLow || !batteryLow
  }

  predicate ConditionsMet(i: Inputs) {
    NetworkAllowed(i.settings, i.network) && BatteryAllowed(i.settings, i.batteryLow)
  }

  predicate SessionOpen(i: Inputs, now: int) {
    now < i.sessionEndsAt
  }

  predicate DesiredRunning(i: Inputs, now: int) {
    if i.appForeground || now < i.foregroundUntil then true
    else if !NetworkAllowed(i.settings, i.network) then false
    else if !BatteryAllowed(i.settings, i.batteryLow) then false
    else SessionOpen(i, now)
  }

  predicate KeepaliveBusy(p: Probe) {
    p.folderBusy || p.peerBehind
  }

  function NextSessionEnd(now: int, startedAt: int, current: int, busy: bool, connected: bool): int {
    if busy then now + ACTIVE_SYNC_EXTEND
    else if !connected && now < startedAt + CONNECT_GRACE then startedAt + CONNECT_GRACE
    else current
  }

  /** When the last deadline passes, nothing but the foreground keeps Syncthing wanted. */
  function LastDeadline(i: Inputs): int {
    if i.sessionEndsAt < i.foregroundUntil then i.foregroundUntil else i.sessionEndsAt
  }

  /** The passing of time alone only ever turns the decision from on to off, and only at a deadline. */
  lemma DecisionOnlyLapses(i: Inputs, earlier: int, later: int)
    requires earlier <= later
    ensures DesiredRunning(i, later) ==> DesiredRunning(i, earlier)
    ensures DesiredRunning(i, earlier) && !DesiredRunning(i, later) ==> earlier < LastDeadline(i)
    ensures LastDeadline(i) <= later ==> (DesiredRunning(i, later) <==> i.appForeground)
  {
  }

  /** A poll that finds a folder busy, or a peer that still needs data from us, makes the session last five more
      minutes. One that finds neither nor any connection leaves it the two minutes a session has to find peers, and any
      other leaves the end alone. */
  lemma PollSetsTheEnd(now: int, startedAt: int, current: int, p: Probe)
    ensures var next := NextSessionEnd(now, startedAt, current, KeepaliveBusy(p), p.connected);
            var work := p.folderBusy || p.peerBehind;
            && (work ==> next == now + 300 * SECOND)
            && (!work && !p.connected && now < startedAt + 120 * SECOND ==> next == startedAt + 120 * SECOND)
            && (!work && (p.connected || startedAt + 120 * SECOND <= now) ==> next == current)
  {
  }

  /** A poll never closes an open session, whatever it finds; and it never moves the end past the busy extension
      or the connect grace. */
  lemma PollKeepsOpen(now: int, startedAt: int, current: int, p: Probe)
    requires now < current
    ensures var next := NextSessionEnd(now, startedAt, current, KeepaliveBusy(p), p.connected);
            now < next && (next <= current || next <= now + ACTIVE_SYNC_EXTEND || next == startedAt + CONNECT_GRACE)
  {
  }

  function Folded(ssids: seq<string>): set<string> {
    set s | s in ssids :: FoldCase(s)
  }

  /** What background running costs at most: outside the foreground and its grace Syncthing is wanted only in an open
      session, on a battery that may be used, never over a roaming link or a metered WiFi while those are blocked,
      and in the strictest mode only on a WiFi whose name is known and trusted. Ordinary metered mobile data is
      nevertheless good enough for the mode that accepts any network. */
  lemma BackgroundRunIsEarned(i: Inputs, now: int)
    requires !i.appForeground && i.foregroundUntil <= now
    ensures DesiredRunning(i, now) ==>
              && now < i.sessionEndsAt
              && (i.batteryLow ==> !i.settings.pauseWhenBatteryLow)
              && (i.settings.blockMeteredRoaming ==>
                    !i.network.roaming && (i.network.metered ==> !i.network.activeWifi))
              && (i.settings.networkMode == "trusted_wifi" ==>
                    && i.network.hasWifi && i.network.ssid != ""
                    && FoldCase(i.network.ssid) in Folded(i.settings.trustedSSIDs))
              && (i.settings.networkMode == "any_wifi" ==> i.network.hasWifi)
    ensures i.settings.networkMode == "any" && !i.network.roaming && !i.network.activeWifi
            && !i.batteryLow && now < i.sessionEndsAt ==>
              DesiredRunning(i, now)
  {
  }

  /** Two names fold to the same exactly when they differ in letter case at most. */
  lemma FoldsAlikeIff(a: string, b: string)
    ensures FoldCase(a) == FoldCase(b) <==>
            |a| == |b| && forall i :: 0 <= i < |a| ==> SameLetter(a[i], b[i])
  {
    forall c, d ensures Fold(c) == Fold(d) <==> SameLetter(c, d) {
    }
    if FoldCase(a) == FoldCase(b) {
      forall i | 0 <= i < |a| ensures SameLetter(a[i], b[i]) {
        assert Fold(a[i]) == FoldCase(a)[i] == FoldCase(b)[i] == Fold(b[i]);
      }
    }
  }

  predicate SameLetter(c: char, d: char) {
    || c == d
    || ('A' <= c <= 'Z' && d as int == c as int + 32)
    || ('A' <= d <= 'Z' && c as int == d as int + 32)
  }

  /** A network will do exactly if it is not one of the costly kinds that are blocked and it is of the kind the mode
      asks for; an unknown mode asks for nothing. */
  lemma NetworkAllowedIff(settings: Settings, n: Network)
    ensures NetworkAllowed(settings, n) <==>
            && (settings.blockMeteredRoaming ==> !n.roaming && !(n.metered && n.activeWifi))
            && (settings.networkMode == "any_wifi" ==> n.hasWifi)
            && (settings.networkMode == "trusted_wifi" ==>
                  n.hasWifi && n.ssid != "" && FoldCase(n.ssid) in Folded(settings.trustedSSIDs))
  {
  }

  /** Syncthing is wanted exactly in the foreground and its grace, and otherwise in an open session on a network that
      will do and a battery that is not low or may be used all the same. */
  lemma DesiredIff(i: Inputs, now: int)
    ensures DesiredRunning(i, now) <==>
            || i.appForeground
            || now < i.foregroundUntil
            || (now < i.sessionEndsAt && NetworkAllowed(i.settings, i.network)
                && (i.batteryLow ==> !i.settings.pauseWhenBatteryLow))
  {
  }

  /** A stricter network mode never allows what a laxer one refuses. */
  lemma ModesAreNested(settings: Settings, n: Network)
    ensures NetworkAllowed(settings.(networkMode := "trusted_wifi"), n) ==>
              NetworkAllowed(settings.(networkMode := "any_wifi"), n)
    ensures NetworkAllowed(settings.(networkMode := "any_wifi"), n) ==>
              NetworkAllowed(settings.(networkMode := "any"), n)
    ensures NetworkAllowed(settings.(blockMeteredRoaming := true), n) ==>
              NetworkAllowed(settings.(blockMeteredRoaming := false), n)
  {
  }
}
