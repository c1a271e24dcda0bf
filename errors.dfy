/**
 * The table that turns the text of a failed `adb connect` into a message for the user
 * (src/utils/index.ts): nine entries tried in order, each a case-insensitive pattern,
 * and a fixed message when none of them matches.
 */
module TcpIpErrors {
  import opened Wrappers
  import opened Text

  /**
   * The two shapes of pattern the table uses: a literal phrase (`/device offline/i`), and
   * `before.*after` (`/device .* not found/i`). Every pattern carries the `i` flag.
   */
  datatype Pattern = Phrase(text: string) | Gap(before: string, after: string)

  /** The keys of the table, in table order. */
  datatype Code =
    | MoreThanOneDevice
    | DeviceNotFound
    | DeviceOffline
    | InsufficientPermissions
    | ProtocolFault
    | NoRouteToHost
    | ConnectionRefused
    | ConnectionTimeout
    | AuthenticationFailed

  /** `pattern.test(s)` for a pattern with the `i` flag; a text shorter than the pattern's literal parts never matches. */
  predicate Matches(p: Pattern, s: string) {
    match p
    case Phrase(t) => Contains(s, t, true)
    case Gap(b, a) => ContainsGap(s, b, a, true)
  }

  /** The order in which `tcpIpErrors` lists its entries. */
  const Table: seq<Code> := [
    MoreThanOneDevice, DeviceNotFound, DeviceOffline, InsufficientPermissions, ProtocolFault,
    NoRouteToHost, ConnectionRefused, ConnectionTimeout, AuthenticationFailed
  ]

  /** The `pattern` of each entry. */
  function PatternOf(c: Code): Pattern {
    match c
    case MoreThanOneDevice => Phrase("more than one device/emulator")
    case DeviceNotFound => Gap("device ", " not found")
    case DeviceOffline => Phrase("device offline")
    case InsufficientPermissions => Phrase("insufficient permissions")
    case ProtocolFault => Phrase("protocol fault")
    case NoRouteToHost => Phrase("no route to host")
    case ConnectionRefused => Phrase("connection refused")
    case ConnectionTimeout => Phrase("connection timed out")
    case AuthenticationFailed => Phrase("failed to authenticate")
  }

  /** The `message` of each entry. */
  function MessageOf(c: Code): string {
    match c
    case MoreThanOneDevice => "Multiple devices connected. Please select the device you want to connect."
    case DeviceNotFound => "The selected device is not found. Check the connection and try again."
    case DeviceOffline => "The device is offline. Please reconnect it or restart ADB."
    case InsufficientPermissions =>
      "Insufficient permissions to access the device. Please check your system settings."
    case ProtocolFault => "ADB encountered a protocol error. Try restarting the ADB server."
    case NoRouteToHost =>
      "Cannot reach the device over the network. Make sure both devices are on the same Wi-Fi."
    case ConnectionRefused =>
      "The device refused the connection. Make sure TCP/IP mode is enabled on the device."
    case ConnectionTimeout => "The connection attempt timed out. Check your network and try again."
    case AuthenticationFailed => "Authentication failed. Accept the ADB pairing prompt on the device."
  }

  const UnknownMessage: string := "An unknown error occurred while connecting via TCP/IP."

  /** The patterns of the entries, in table order. */
  function Patterns(table: seq<Code>): (r: seq<Pattern>)
    ensures |r| == |table| && forall i :: 0 <= i < |table| ==> r[i] == PatternOf(table[i])
  {
    seq(|table|, i requires 0 <= i < |table| => PatternOf(table[i]))
  }

  /** `find(...)` from position `from` on: the first pattern that matches. */
  function FindEntry(patterns: seq<Pattern>, s: string, from: nat): (r: Option<nat>)
    decreases |patterns| - from
    ensures r.Some? ==> from <= r.value < |patterns| && Matches(patterns[r.value], s)
    ensures r.Some? ==> forall j :: from <= j < r.value ==> !Matches(patterns[j], s)
    ensures r.None? ==> forall j :: from <= j < |patterns| ==> !Matches(patterns[j], s)
  {
    if from >= |patterns| then None
    else if Matches(patterns[from], s) then Some(from)
    else FindEntry(patterns, s, from + 1)
  }

  /** The entry `find` returns, if any. */
  function ErrorCode(s: string): (r: Option<Code>)
    ensures r.Some? <==> exists i :: 0 <= i < |Table| && Matches(PatternOf(Table[i]), s)
  {
    match FindEntry(Patterns(Table), s, 0)
    case Some(i) => Some(Table[i])
    case None => None
  }

  /** `getTcpIpErrorMessage`: the entry's message, or the fallback when no entry matches. */
  function ErrorMessage(s: string): (r: string)
    ensures r == UnknownMessage || exists c: Code :: r == MessageOf(c)
    ensures ErrorCode(s).None? ==> r == UnknownMessage
    ensures ErrorCode(s).Some? ==> r == MessageOf(ErrorCode(s).value)
    ensures r == UnknownMessage <==> ErrorCode(s).None?
  {
    match ErrorCode(s)
    case Some(c) => MessageNotFallback(c); MessageOf(c)
    case None => UnknownMessage
  }

  /** No entry's message is the fallback, so the fallback tells that nothing matched. */
  lemma MessageNotFallback(c: Code)
    ensures MessageOf(c) != UnknownMessage
  {
    match c
    case MoreThanOneDevice =>
    case DeviceNotFound =>
    case DeviceOffline =>
    case InsufficientPermissions =>
    case ProtocolFault =>
    case NoRouteToHost =>
    case ConnectionRefused =>
    case ConnectionTimeout =>
    case AuthenticationFailed =>
  }

  /** The entry that decides: the first one, in table order, whose pattern matches. */
  lemma FirstMatchWins(s: string, i: nat)
    requires i < |Table| && Matches(PatternOf(Table[i]), s)
    requires forall j :: 0 <= j < i ==> !Matches(PatternOf(Table[j]), s)
    ensures ErrorCode(s) == Some(Table[i])
    ensures ErrorMessage(s) == MessageOf(Table[i])
  {
    var r := FindEntry(Patterns(Table), s, 0);
    assert r.Some?;
  }

  /** The table lists each code once. */
  lemma TableDistinct()
    ensures forall i, j :: 0 <= i < j < |Table| ==> Table[i] != Table[j]
  {
  }

  /** When two entries match, the later one never decides. */
  lemma EarlierWins(s: string, i: nat, j: nat)
    requires i < j < |Table|
    requires Matches(PatternOf(Table[i]), s) && Matches(PatternOf(Table[j]), s)
    ensures ErrorCode(s) != Some(Table[j])
  {
    var r := FindEntry(Patterns(Table), s, 0);
    assert r.Some? && r.value <= i;
    TableDistinct();
  }

  /**
   * A text that reports both an offline device and a refused connection gets the offline
   * message (entry 2 comes before entry 6), unless one of the first two entries matches.
   */
  lemma OfflineBeatsRefused(s: string)
    requires Matches(PatternOf(DeviceOffline), s) && Matches(PatternOf(ConnectionRefused), s)
    requires !Matches(PatternOf(MoreThanOneDevice), s) && !Matches(PatternOf(DeviceNotFound), s)
    ensures ErrorCode(s) == Some(DeviceOffline)
    ensures ErrorMessage(s) == MessageOf(DeviceOffline)
  {
    var p := Patterns(Table);
    assert p[0] == PatternOf(MoreThanOneDevice) && p[1] == PatternOf(DeviceNotFound);
    assert p[2] == PatternOf(DeviceOffline);
    assert FindEntry(p, s, 0) == FindEntry(p, s, 1) == FindEntry(p, s, 2) == Some(2);
  }

  /** The shortest text a pattern can match. */
  function MinLength(p: Pattern): nat {
    match p
    case Phrase(t) => |t|
    case Gap(b, a) => |b| + |a|
  }

  /** A text shorter than a pattern cannot match it. */
  lemma ShortTextNoMatch(p: Pattern, s: string)
    requires |s| < MinLength(p)
    ensures !Matches(p, s)
  {
  }

  /** No pattern of the table is empty. */
  lemma PatternNonEmpty(c: Code)
    ensures MinLength(PatternOf(c)) > 0
  {
  }

  /** Two texts that differ only in the case of ASCII letters get the same message. */
  lemma CaseInsensitive(s: string, u: string)
    requires |s| == |u| && forall k :: 0 <= k < |s| ==> LowerChar(s[k]) == LowerChar(u[k])
    ensures ErrorMessage(s) == ErrorMessage(u)
  {
    forall c: Code
      ensures Matches(PatternOf(c), s) == Matches(PatternOf(c), u)
    {
      MatchesFolded(PatternOf(c), s, u);
    }
    EntryFolded(s, u, 0);
  }

  lemma {:induction false} EntryFolded(s: string, u: string, from: nat)
    requires forall c: Code :: Matches(PatternOf(c), s) == Matches(PatternOf(c), u)
    decreases |Table| - from
    ensures FindEntry(Patterns(Table), s, from) == FindEntry(Patterns(Table), u, from)
  {
    if from < |Table| && !Matches(PatternOf(Table[from]), s) {
      EntryFolded(s, u, from + 1);
    }
  }

  lemma MatchesFolded(p: Pattern, s: string, u: string)
    requires |s| == |u| && forall k :: 0 <= k < |s| ==> LowerChar(s[k]) == LowerChar(u[k])
    ensures Matches(p, s) == Matches(p, u)
  {
    forall i: nat, t: string
      ensures MatchAt(s, i, t, true) == MatchAt(u, i, t, true)
    {
      if i + |t| <= |s| {
        forall k | 0 <= k < |t|
          ensures SameChar(s[i + k], t[k], true) == SameChar(u[i + k], t[k], true)
        {
          assert LowerChar(s[i + k]) == LowerChar(u[i + k]);
        }
      }
    }
    forall j: nat, k: nat
      ensures LineFree(s, j, k) == LineFree(u, j, k)
    {
      if j <= k <= |s| {
        forall m | j <= m < k
          ensures IsLineTerminator(s[m]) == IsLineTerminator(u[m])
        {
          assert LowerChar(s[m]) == LowerChar(u[m]);
        }
      }
    }
  }

  /**
   * `device .* not found` accepts any text of one line between its two halves: a text with
   * `device ` followed on the same line by ` not found` gets the not-found message, unless
   * it also reports more than one device.
   */
  lemma NotFoundBetween(s: string, i: nat, k: nat)
    requires MatchAt(s, i, "device ", true) && LineFree(s, i + 7, k) && MatchAt(s, k, " not found", true)
    requires !Matches(PatternOf(MoreThanOneDevice), s)
    ensures ErrorCode(s) == Some(DeviceNotFound)
  {
    assert Matches(PatternOf(DeviceNotFound), s);
    FirstMatchWins(s, 1);
  }

  /** An empty text matches no pattern and gets the fallback. */
  lemma EmptyIsUnknown(s: string)
    requires s == ""
    ensures ErrorCode(s) == None && ErrorMessage(s) == UnknownMessage
  {
    forall c: Code
      ensures !Matches(PatternOf(c), s)
    {
      PatternNonEmpty(c);
      ShortTextNoMatch(PatternOf(c), s);
    }
  }
}
