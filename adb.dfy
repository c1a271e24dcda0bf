/**
 * electron/adb.ts: parsing the bridge's text output (device list, battery, screen size,
 * connection state, server state) and the mirror sessions kept in `activeMirrors`.
 */
module Adb {
  import opened Wrappers
  import opened Text
  import opened Registry

  // ---------------------------------------------------------------- transport

  datatype Transport = Usb | TcpIp

  /** One to three decimal digits; the value is not range-checked. */
  predicate IsGroup(g: string) {
    1 <= |g| <= 3 && AllDigits(g)
  }

  /** The end of the run of digits that starts at index `j` of `s`. */
  function DigitsEnd(s: string, j: nat): (e: nat)
    requires j <= |s|
    decreases |s| - j
    ensures j <= e <= |s|
    ensures forall m :: j <= m < e ==> IsDigit(s[m])
    ensures e < |s| ==> !IsDigit(s[e])
  {
    if j < |s| && IsDigit(s[j]) then DigitsEnd(s, j + 1) else j
  }

  /**
   * `k` groups of one to three digits separated by `.`, then `:` and at least one digit, from
   * index `j` of `s`. Each group is followed by a non-digit, so it is the whole digit run there.
   */
  predicate GroupsThenPort(s: string, j: nat, k: nat)
    requires j <= |s| && k >= 1
    decreases k
  {
    var e := DigitsEnd(s, j);
    1 <= e - j <= 3 && e < |s| &&
    if k == 1 then s[e] == ':' && DigitsEnd(s, e + 1) > e + 1
    else s[e] == '.' && GroupsThenPort(s, e + 1, k - 1)
  }

  /** The test `/^\d{1,3}(\.\d{1,3}){3}:\d+/.test(serial)`: a prefix match. */
  predicate IsTcpIpSerial(serial: string) {
    GroupsThenPort(serial, 0, 4)
  }

  /** A match of `k` groups from `j` takes at least `2k + 1` characters and starts with a digit. */
  lemma {:induction false} GroupsThenPortLength(s: string, j: nat, k: nat)
    requires j <= |s| && k >= 1
    decreases k
    ensures GroupsThenPort(s, j, k) ==> j + 2 * k + 1 <= |s| && IsDigit(s[j])
  {
    if GroupsThenPort(s, j, k) && k > 1 {
      GroupsThenPortLength(s, DigitsEnd(s, j) + 1, k - 1);
    }
  }

  /** `tcpip` only for a serial of at least `d.d.d.d:d` that starts with a digit. */
  function Classify(serial: string): (r: Transport)
    ensures r == TcpIp ==> |serial| >= 9 && IsDigit(serial[0])
  {
    GroupsThenPortLength(serial, 0, 4);
    if IsTcpIpSerial(serial) then TcpIp else Usb
  }

  /** A run of digits from `j` to a non-digit (or the end) at `e`: the digit run there ends at `e`. */
  lemma {:induction false} DigitsEndAt(s: string, j: nat, e: nat)
    requires j <= e <= |s|
    requires forall m :: j <= m < e ==> IsDigit(s[m])
    requires e < |s| ==> !IsDigit(s[e])
    decreases e - j
    ensures DigitsEnd(s, j) == e
  {
    if j < e {
      DigitsEndAt(s, j + 1, e);
    }
  }

  /** A group followed by a non-digit `c`: the digit run at the group's start ends with it. */
  lemma GroupAt(p: string, g: string, c: string, t: string)
    requires IsGroup(g) && |c| == 1 && !IsDigit(c[0])
    ensures var s := p + g + c + t; |p| + |g| < |s| && DigitsEnd(s, |p|) == |p| + |g| && s[|p| + |g|] == c[0]
  {
    var s := p + g + c + t;
    forall m | |p| <= m < |p| + |g| ensures IsDigit(s[m]) {
      assert s[m] == g[m - |p|];
    }
    DigitsEndAt(s, |p|, |p| + |g|);
  }

  /** A leading group followed by `.` and a match of `k - 1` groups is a match of `k` groups. */
  lemma GroupsThenPortDot(s: string, j: nat, e: nat, k: nat)
    requires k >= 2 && j <= |s| && DigitsEnd(s, j) == e && 1 <= e - j <= 3 && e < |s| && s[e] == '.'
    requires GroupsThenPort(s, e + 1, k - 1)
    ensures GroupsThenPort(s, j, k)
  {
  }

  /** A leading group followed by `:` and a digit is a match of one group. */
  lemma GroupsThenPortColon(s: string, j: nat, e: nat)
    requires j <= |s| && DigitsEnd(s, j) == e && 1 <= e - j <= 3 && e + 1 < |s| && s[e] == ':'
    requires IsDigit(s[e + 1])
    ensures GroupsThenPort(s, j, 1)
  {
  }

  /** One more group in front of a match of `k - 1` groups that starts after the dot. */
  lemma DotStep(p: string, g: string, t: string, k: nat)
    requires IsGroup(g) && k >= 2 && GroupsThenPort(p + g + "." + t, |p + g + "."|, k - 1)
    ensures GroupsThenPort(p + g + "." + t, |p|, k)
  {
    GroupAt(p, g, ".", t);
    GroupsThenPortDot(p + g + "." + t, |p|, |p| + |g|, k);
  }

  lemma RegroupDot<T>(p: seq<T>, g: seq<T>, d: seq<T>, x: seq<T>, c: seq<T>, port: seq<T>, rest: seq<T>)
    ensures p + (g + d + x + c + port + rest) == p + g + d + (x + c + port + rest)
  {
  }

  lemma RegroupColon<T>(p: seq<T>, g: seq<T>, c: seq<T>, port: seq<T>, rest: seq<T>)
    ensures p + (g + c + port + rest) == p + g + c + (port + rest)
  {
  }

  /** The last group, `:` and the port digits. */
  lemma ColonStep(p: string, g: string, port: string, rest: string)
    requires IsGroup(g) && port != [] && AllDigits(port)
    ensures GroupsThenPort(p + g + ":" + (port + rest), |p|, 1)
  {
    var s := p + g + ":" + (port + rest);
    GroupAt(p, g, ":", port + rest);
    assert s[|p| + |g| + 1] == port[0];
    GroupsThenPortColon(s, |p|, |p| + |g|);
  }

  /** Everything from `|p|` on: groups joined by dots, `:`, port digits and anything, matches. */
  lemma {:induction false} RenderedMatchesAfter(p: string, groups: seq<string>, port: string, rest: string)
    requires |groups| >= 1 && forall i :: 0 <= i < |groups| ==> IsGroup(groups[i])
    requires port != [] && AllDigits(port)
    decreases |groups|
    ensures var s := p + (JoinWith(groups, '.') + ":" + port + rest);
      GroupsThenPort(s, |p|, |groups|)
  {
    var s := p + (JoinWith(groups, '.') + ":" + port + rest);
    var g := groups[0];
    if |groups| == 1 {
      assert JoinWith(groups, '.') == g;
      RegroupColon(p, g, ":", port, rest);
      ColonStep(p, g, port, rest);
    } else {
      var tail := groups[1..];
      assert forall i :: 0 <= i < |tail| ==> IsGroup(tail[i]) by {
        forall i | 0 <= i < |tail| ensures IsGroup(tail[i]) {
          assert tail[i] == groups[i + 1];
        }
      }
      var x := JoinWith(tail, '.');
      assert JoinWith(groups, '.') == g + "." + x;
      RegroupDot(p, g, ".", x, ":", port, rest);
      RenderedMatchesAfter(p + g + ".", tail, port, rest);
      DotStep(p, g, x + ":" + port + rest, |groups|);
    }
  }

  /** The digits between `j` and `e` form a string of digits. */
  lemma DigitsBetween(s: string, j: nat, e: nat)
    requires j <= e <= |s| && forall m :: j <= m < e ==> IsDigit(s[m])
    ensures AllDigits(s[j..e])
  {
    forall i | 0 <= i < e - j ensures IsDigit(s[j..e][i]) {
      assert s[j..e][i] == s[j + i];
    }
  }

  lemma CutDot<T>(s: seq<T>, j: nat, e: nat, x: seq<T>)
    requires j <= e < |s| && s == s[..e + 1] + x
    ensures s == s[..j] + s[j..e] + [s[e]] + x
  {
    assert s[..e + 1] == s[..j] + s[j..e] + [s[e]];
  }

  lemma CutColon<T>(s: seq<T>, j: nat, e: nat, f: nat)
    requires j <= e < f <= |s|
    ensures s == s[..j] + (s[j..e] + [s[e]] + s[e + 1..f] + s[f..])
  {
    assert s == s[..j] + s[j..e] + [s[e]] + s[e + 1..f] + s[f..];
  }

  /** The first group of a match of `k >= 2` groups from `j`, and the dot after it. */
  lemma FirstGroup(s: string, j: nat, k: nat) returns (g: string, e: nat)
    requires j <= |s| && k >= 2 && GroupsThenPort(s, j, k)
    ensures IsGroup(g) && j <= e < |s| && g == s[j..e] && s[e] == '.' && GroupsThenPort(s, e + 1, k - 1)
  {
    e := DigitsEnd(s, j);
    g := s[j..e];
    DigitsBetween(s, j, e);
  }

  /** The only group of a match of one group from `j`, the port digits and the rest. */
  lemma LastGroup(s: string, j: nat) returns (g: string, port: string, rest: string)
    requires j <= |s| && GroupsThenPort(s, j, 1)
    ensures IsGroup(g) && port != [] && AllDigits(port)
    ensures s == s[..j] + (g + ":" + port + rest)
  {
    var e := DigitsEnd(s, j);
    var f := DigitsEnd(s, e + 1);
    g, port, rest := s[j..e], s[e + 1..f], s[f..];
    DigitsBetween(s, j, e);
    DigitsBetween(s, e + 1, f);
    CutColon(s, j, e, f);
  }

  /** Every match from `j` splits into its groups, its port and the rest of the serial. */
  lemma {:induction false} Decompose(s: string, j: nat, k: nat)
      returns (groups: seq<string>, port: string, rest: string)
    requires j <= |s| && k >= 1 && GroupsThenPort(s, j, k)
    decreases k, 1
    ensures |groups| == k && forall i :: 0 <= i < k ==> IsGroup(groups[i])
    ensures port != [] && AllDigits(port)
    ensures s == s[..j] + (JoinWith(groups, '.') + ":" + port + rest)
  {
    if k == 1 {
      var g;
      g, port, rest := LastGroup(s, j);
      groups := [g];
    } else {
      groups, port, rest := DecomposeDot(s, j, k);
    }
  }

  /** A match of `k >= 2` groups: the first group, the dot and the decomposition of the others. */
  lemma {:induction false} DecomposeDot(s: string, j: nat, k: nat)
      returns (groups: seq<string>, port: string, rest: string)
    requires j <= |s| && k >= 2 && GroupsThenPort(s, j, k)
    decreases k, 0
    ensures |groups| == k && forall i :: 0 <= i < k ==> IsGroup(groups[i])
    ensures port != [] && AllDigits(port)
    ensures s == s[..j] + (JoinWith(groups, '.') + ":" + port + rest)
  {
    var g, e := FirstGroup(s, j, k);
    var gs;
    gs, port, rest := Decompose(s, e + 1, k - 1);
    groups := [g] + gs;
    GroupsCons(g, gs);
    var x := JoinWith(gs, '.');
    CutDot(s, j, e, x + ":" + port + rest);
    RegroupDot(s[..j], g, ".", x, ":", port, rest);
    assert groups[1..] == gs;
    assert JoinWith(groups, '.') == g + "." + x;
  }

  /** A leading group in front of `k - 1` groups makes `k` groups. */
  lemma GroupsCons(g: string, groups: seq<string>)
    requires IsGroup(g) && forall i :: 0 <= i < |groups| ==> IsGroup(groups[i])
    ensures forall i :: 0 <= i < |[g] + groups| ==> IsGroup(([g] + groups)[i])
  {
    var gs := [g] + groups;
    forall i | 0 <= i < |gs| ensures IsGroup(gs[i]) {
      if i > 0 {
        assert gs[i] == groups[i - 1];
      }
    }
  }

  /** A serial is a TCP/IP serial when it has the shape `a.b.c.d:port...`. */
  lemma TcpIpShape(a: string, b: string, c: string, d: string, port: string, rest: string)
    requires IsGroup(a) && IsGroup(b) && IsGroup(c) && IsGroup(d)
    requires port != [] && AllDigits(port)
    ensures IsTcpIpSerial(a + "." + b + "." + c + "." + d + ":" + port + rest)
  {
    var groups := [a, b, c, d];
    JoinFour(a, b, c, d);
    RenderedMatchesAfter([], groups, port, rest);
    assert [] + (JoinWith(groups, '.') + ":" + port + rest) == a + "." + b + "." + c + "." + d + ":" + port + rest;
  }

  /** Only serials of the shape `a.b.c.d:port...` are TCP/IP serials. */
  lemma TcpIpParts(serial: string) returns (a: string, b: string, c: string, d: string, port: string, rest: string)
    requires IsTcpIpSerial(serial)
    ensures IsGroup(a) && IsGroup(b) && IsGroup(c) && IsGroup(d)
    ensures port != [] && AllDigits(port)
    ensures serial == a + "." + b + "." + c + "." + d + ":" + port + rest
  {
    var groups;
    groups, port, rest := Decompose(serial, 0, 4);
    a, b, c, d := groups[0], groups[1], groups[2], groups[3];
    FourElements(groups);
    JoinFour(a, b, c, d);
    assert serial[..0] + (JoinWith(groups, '.') + ":" + port + rest) == a + "." + b + "." + c + "." + d + ":" + port + rest;
  }

  lemma FourElements<T>(s: seq<T>)
    requires |s| == 4
    ensures s == [s[0], s[1], s[2], s[3]]
  {
  }

  lemma JoinFour(a: string, b: string, c: string, d: string)
    ensures JoinWith([a, b, c, d], '.') == a + "." + b + "." + c + "." + d
  {
    assert JoinWith([d], '.') == d;
    assert [c, d][1..] == [d];
    assert JoinWith([c, d], '.') == c + "." + d;
    assert [b, c, d][1..] == [c, d];
    assert JoinWith([b, c, d], '.') == b + "." + c + "." + d;
    assert [a, b, c, d][1..] == [b, c, d];
  }

  /** The serial `192.168.1.5:5555`. */
  lemma TcpIpExample(a: string, b: string, c: string, d: string, port: string)
    requires a == "192" && b == "168" && c == "1" && d == "5" && port == "5555"
    ensures Classify(a + "." + b + "." + c + "." + d + ":" + port) == TcpIp
  {
    TcpIpShape(a, b, c, d, port, "");
    assert a + "." + b + "." + c + "." + d + ":" + port + "" == a + "." + b + "." + c + "." + d + ":" + port;
  }

  lemma UsbExample()
    ensures Classify("ABC123") == Usb
  {
    assert DigitsEnd("ABC123", 0) == 0;
  }

  // ---------------------------------------------------------------- `adb devices -l`

  /** One `key:value` token; a token without `:` has no value. */
  datatype Prop = Prop(key: string, value: Option<string>)

  datatype DeviceInfo = DeviceInfo(
    serial: string,
    status: Option<string>,
    connectionMode: Transport,
    model: string,
    product: Option<string>,
    device: Option<string>)

  /** `const [key, value] = item.split(":")`. */
  function PropOf(item: string): (r: Prop)
    ensures ':' !in r.key
    ensures ':' !in item ==> r == Prop(item, None)
  {
    var parts := SplitOn(item, ':');
    assert ':' !in item ==> parts == [item] by {
      if ':' !in item {
        SplitJoin([item], ':');
      }
    }
    Prop(parts[0], if |parts| > 1 then Some(parts[1]) else None)
  }

  function PropsOf(items: seq<string>): (r: seq<Prop>)
    ensures |r| == |items| && forall i :: 0 <= i < |items| ==> r[i] == PropOf(items[i])
  {
    seq(|items|, i requires 0 <= i < |items| => PropOf(items[i]))
  }

  /** The last index below `n` whose entry has the key. */
  function LastWith(props: seq<Prop>, key: string, n: nat): (r: Option<nat>)
    requires n <= |props|
    ensures r.Some? ==> r.value < n && props[r.value].key == key
    ensures r.Some? ==> forall j :: r.value < j < n ==> props[j].key != key
    ensures r.None? ==> forall j :: 0 <= j < n ==> props[j].key != key
  {
    if n == 0 then None
    else if props[n - 1].key == key then Some(n - 1)
    else LastWith(props, key, n - 1)
  }

  /** `Object.fromEntries(props)[key]`: the last entry with that key wins. */
  function Lookup(props: seq<Prop>, key: string): (r: Option<string>)
    ensures r.Some? ==> exists i :: 0 <= i < |props| && props[i] == Prop(key, r)
  {
    match LastWith(props, key, |props|)
    case None => None
    case Some(i) => props[i].value
  }

  /** Lookup finds the value of the last entry with the key, and nothing when there is none. */
  lemma LookupLast(props: seq<Prop>, key: string, i: nat)
    requires i < |props| && props[i].key == key
    requires forall j :: i < j < |props| ==> props[j].key != key
    ensures Lookup(props, key) == props[i].value
  {
  }

  lemma LookupAbsent(props: seq<Prop>, key: string)
    requires forall j :: 0 <= j < |props| ==> props[j].key != key
    ensures Lookup(props, key) == None
  {
  }

  /** `props.model || "unknown"`. */
  function ModelOr(v: Option<string>): (r: string)
    ensures r != ""
    ensures v.Some? && v.value != "" ==> r == v.value
    ensures v.None? || v == Some("") ==> r == "unknown"
  {
    match v
    case Some(m) => if m == "" then "unknown" else m
    case None => "unknown"
  }

  /** `const [serial, status, ...rest] = line.split(/\s+/)` and the record built from it. */
  function ParseDeviceLine(line: string): (r: DeviceInfo)
    ensures NoWs(r.serial) && |r.serial| <= |line| && r.serial == line[..|r.serial|]
    ensures |r.serial| < |line| ==> IsWs(line[|r.serial|])
    ensures r.connectionMode == TcpIp ==> |r.serial| >= 9
    ensures r.model != ""
  {
    var tokens := SplitWs(line);
    SplitWsHead(line);
    var props := PropsOf(if |tokens| > 2 then tokens[2..] else []);
    DeviceInfo(
      tokens[0],
      if |tokens| > 1 then Some(tokens[1]) else None,
      Classify(tokens[0]),
      ModelOr(Lookup(props, "model")),
      Lookup(props, "product"),
      Lookup(props, "device"))
  }

  /** `lines.filter(line => line.trim() !== "").map(parse)`. */
  function ParseLines(lines: seq<string>): (r: seq<DeviceInfo>)
    ensures |r| <= |lines|
  {
    if lines == [] then [] else LineDevices(lines[0]) + ParseLines(lines[1..])
  }

  /** What one line contributes: nothing when it is blank once trimmed, else its device. */
  function LineDevices(line: string): (r: seq<DeviceInfo>)
    ensures |r| <= 1
    ensures r == [] <==> IsBlank(line)
  {
    if Trim(line) == "" then [] else [ParseDeviceLine(line)]
  }

  lemma Reassociate<T>(x: seq<T>, y: seq<T>, z: seq<T>)
    ensures x + (y + z) == x + y + z
  {
  }

  /** `listDevices`: `stdout` is None when the command fails, which yields no devices. */
  function ListDevices(stdout: Option<string>): (r: seq<DeviceInfo>)
    ensures stdout.None? ==> r == []
    ensures stdout.Some? ==> |r| < |SplitOn(stdout.value, '\n')|
  {
    match stdout
    case None => []
    case Some(out) => ParseLines(SplitOn(out, '\n')[1..])
  }

  /** Parsing is line by line and keeps the order of the lines. */
  lemma {:induction false} ParseLinesAppend(a: seq<string>, b: seq<string>)
    ensures ParseLines(a + b) == ParseLines(a) + ParseLines(b)
  {
    if a != [] {
      assert (a + b)[0] == a[0] && (a + b)[1..] == a[1..] + b;
      ParseLinesAppend(a[1..], b);
      Reassociate(LineDevices(a[0]), ParseLines(a[1..]), ParseLines(b));
    } else {
      assert a + b == b;
    }
  }

  /** A blank line yields nothing; any other line yields exactly its device. */
  lemma ParseOneLine(line: string)
    ensures IsBlank(line) ==> ParseLines([line]) == []
    ensures !IsBlank(line) ==> ParseLines([line]) == [ParseDeviceLine(line)]
  {
    assert [line][1..] == [];
  }

  /** The first line is a header and never yields a device. */
  lemma ListDevicesDropsHeader(header: string, body: string)
    requires '\n' !in header
    ensures ListDevices(Some(header + "\n" + body)) == ParseLines(SplitOn(body, '\n'))
  {
    SplitAfterFirst(header, body, '\n');
  }

  /** A line of three whitespace-free tokens separated by single spaces splits into them. */
  lemma SplitThree(x: string, y: string, z: string)
    requires x != [] && NoWs(x) && y != [] && NoWs(y) && z != [] && NoWs(z)
    ensures SplitWs(x + " " + y + " " + z) == [x, y, z]
  {
    assert IsBlank(" ");
    SplitWsThree(x, " ", y, " ", z);
  }

  /** `model:M` is a whitespace-free token that reads back as the property `model`. */
  lemma ModelToken(model: string)
    requires NoWs(model) && ':' !in model
    ensures NoWs("model:" + model)
    ensures PropOf("model:" + model) == Prop("model", Some(model))
  {
    var item := "model:" + model;
    forall i | 0 <= i < |item| ensures !IsWs(item[i]) {
      if i >= 6 { assert item[i] == model[i - 6]; }
    }
    SplitJoin(["model", model], ':');
    assert JoinWith(["model", model], ':') == item;
  }

  /** The line's fields when the third token is the only property. */
  lemma ParseThreeTokens(line: string, serial: string, status: string, model: string)
    requires SplitWs(line) == [serial, status, "model:" + model] && model != []
    requires PropOf("model:" + model) == Prop("model", Some(model))
    ensures var d := ParseDeviceLine(line);
      d.serial == serial && d.status == Some(status) && d.model == model &&
      d.connectionMode == Classify(serial) && d.product == None && d.device == None
  {
    var tokens := SplitWs(line);
    assert tokens[2..] == ["model:" + model];
    var props := PropsOf(tokens[2..]);
    assert props == [Prop("model", Some(model))];
    LookupLast(props, "model", 0);
    LookupAbsent(props, "product");
    LookupAbsent(props, "device");
  }

  /** `serial status model:M` parses back into its parts. */
  lemma ParseRenderedLine(serial: string, status: string, model: string)
    requires serial != [] && NoWs(serial)
    requires status != [] && NoWs(status)
    requires model != [] && NoWs(model) && ':' !in model
    ensures var d := ParseDeviceLine(serial + " " + status + " model:" + model);
      d.serial == serial && d.status == Some(status) && d.model == model &&
      d.connectionMode == Classify(serial) && d.product == None && d.device == None
  {
    var line := serial + " " + status + " model:" + model;
    ModelToken(model);
    SplitThree(serial, status, "model:" + model);
    assert line == serial + " " + status + " " + ("model:" + model);
    ParseThreeTokens(line, serial, status, model);
  }

  /** The line `ABC123 device model:Pixel6`. */
  lemma ParseExampleLine(serial: string, status: string, model: string)
    requires serial == "ABC123" && status == "device" && model == "Pixel6"
    ensures ParseDeviceLine(serial + " " + status + " model:" + model) ==
      DeviceInfo(serial, Some(status), Usb, model, None, None)
  {
    ParseRenderedLine(serial, status, model);
    UsbExample();
  }

  /**
   * A line as `adb devices -l` pads it: the serial, a run of whitespace, the status, another
   * run, and the properties. The serial and the status are the first two tokens whatever the
   * runs are, and every later token is read as a property.
   */
  lemma ParsePaddedLine(serial: string, w1: string, status: string, w2: string, rest: string)
    requires serial != [] && NoWs(serial) && status != [] && NoWs(status)
    requires w1 != [] && IsBlank(w1) && w2 != [] && IsBlank(w2)
    requires rest == [] || !IsWs(rest[0])
    ensures var props := PropsOf(SplitWs(rest));
      ParseDeviceLine(serial + w1 + status + w2 + rest) ==
        DeviceInfo(serial, Some(status), Classify(serial), ModelOr(Lookup(props, "model")),
                   Lookup(props, "product"), Lookup(props, "device"))
  {
    Group3(serial, w1, status, w2, rest);
    HeadOfConcat(status, w2 + rest);
    SplitWsRun(serial, w1, status + w2 + rest);
    SplitWsRun(status, w2, rest);
    ParseTokens(serial + w1 + status + w2 + rest, serial, status, SplitWs(rest));
  }

  lemma HeadOfConcat<T>(a: seq<T>, b: seq<T>)
    requires a != []
    ensures (a + b)[0] == a[0]
  {
  }

  /** A line whose tokens are `a`, `b` and then `more` is read as serial `a`, status `b`, properties `more`. */
  lemma ParseTokens(line: string, a: string, b: string, more: seq<string>)
    requires SplitWs(line) == [a] + ([b] + more)
    ensures var props := PropsOf(more);
      ParseDeviceLine(line) == DeviceInfo(a, Some(b), Classify(a), ModelOr(Lookup(props, "model")),
                                          Lookup(props, "product"), Lookup(props, "device"))
  {
    TwoThen(a, b, more);
  }

  /** The first two elements of `[a] + ([b] + more)` and what follows them. */
  lemma TwoThen<T>(a: T, b: T, more: seq<T>)
    ensures var s := [a] + ([b] + more); |s| >= 2 && s[0] == a && s[1] == b && s[2..] == more
  {
  }

  /** A padded line whose properties have no `model` key gets the model `unknown`. */
  lemma ParsePaddedNoModel(serial: string, w1: string, status: string, w2: string, rest: string)
    requires serial != [] && NoWs(serial) && status != [] && NoWs(status)
    requires w1 != [] && IsBlank(w1) && w2 != [] && IsBlank(w2)
    requires rest == [] || !IsWs(rest[0])
    requires forall t :: t in SplitWs(rest) ==> PropOf(t).key != "model"
    ensures ParseDeviceLine(serial + w1 + status + w2 + rest).model == "unknown"
  {
    ParsePaddedLine(serial, w1, status, w2, rest);
    var props := PropsOf(SplitWs(rest));
    forall j | 0 <= j < |props| ensures props[j].key != "model" {
      assert SplitWs(rest)[j] in SplitWs(rest);
    }
    LookupAbsent(props, "model");
  }

  /** A line with only a serial and a status has model `unknown` and no product or device. */
  lemma ParseTwoTokenLine(serial: string, w: string, status: string)
    requires serial != [] && NoWs(serial) && status != [] && NoWs(status)
    requires w != [] && IsBlank(w)
    ensures ParseDeviceLine(serial + w + status) ==
      DeviceInfo(serial, Some(status), Classify(serial), "unknown", None, None)
  {
    SplitWsRun(serial, w, status);
    assert SplitWs(status) == [status];
    ParseTokens(serial + w + status, serial, status, []);
  }

  // ---------------------------------------------------------------- getDeviceDetails

  /** The index just past the whitespace run starting at `j`. */
  function SkipWs(s: string, j: nat): (r: nat)
    requires j <= |s|
    decreases |s| - j
    ensures j <= r <= |s|
    ensures forall m :: j <= m < r ==> IsWs(s[m])
    ensures r < |s| ==> !IsWs(s[r])
  {
    if j < |s| && IsWs(s[j]) then SkipWs(s, j + 1) else j
  }

  /** The length of the run of digits at the start of `s`. */
  function LeadingDigits(s: string): (n: nat)
    ensures n <= |s| && AllDigits(s[..n])
    ensures n < |s| ==> !IsDigit(s[n])
  {
    if s != [] && IsDigit(s[0]) then
      var n := 1 + LeadingDigits(s[1..]);
      assert s[..n] == [s[0]] + s[1..][..n - 1];
      n
    else 0
  }

  /** `key\s*(\d+)` matches at offset `i`. */
  predicate CaptureAt(s: string, i: nat, key: string) {
    MatchAt(s, i, key, false) && LeadingDigits(s[SkipWs(s, i + |key|)..]) >= 1
  }

  /** The digits `key\s*(\d+)` captures at offset `i`. */
  function CapturedAt(s: string, i: nat, key: string): (d: string)
    requires CaptureAt(s, i, key)
    ensures d != [] && AllDigits(d)
  {
    var t := s[SkipWs(s, i + |key|)..];
    t[..LeadingDigits(t)]
  }

  function FirstCaptureFrom(s: string, key: string, from: nat): (r: Option<nat>)
    decreases |s| - from
    ensures r.Some? ==> from <= r.value && CaptureAt(s, r.value, key)
    ensures r.Some? ==> forall j :: from <= j < r.value ==> !CaptureAt(s, j, key)
    ensures r.None? ==> forall j: nat :: from <= j ==> !CaptureAt(s, j, key)
  {
    if from + |key| > |s| then None
    else if CaptureAt(s, from, key) then Some(from)
    else FirstCaptureFrom(s, key, from + 1)
  }

  /** `s.match(/key\s*(\d+)/)?.[1]`: the digits after the leftmost match. */
  function Capture(s: string, key: string): (r: Option<string>)
    ensures r.None? <==> forall j: nat :: !CaptureAt(s, j, key)
    ensures r.Some? ==> exists i: nat :: (CaptureAt(s, i, key) && r.value == CapturedAt(s, i, key) &&
      forall j :: 0 <= j < i ==> !CaptureAt(s, j, key))
  {
    match FirstCaptureFrom(s, key, 0)
    case None => None
    case Some(i) => Some(CapturedAt(s, i, key))
  }

  function BatteryLevel(battery: string): (r: string)
    ensures r == "Unknown" <==> Capture(battery, "level:").None?
    ensures r != "Unknown" ==> r == Capture(battery, "level:").value + "%"
  {
    match Capture(battery, "level:")
    case Some(d) =>
      assert (d + "%")[|d|] == '%';
      d + "%"
    case None => "Unknown"
  }

  const BatteryStatusMap: map<string, string> :=
    map["1" := "Unknown", "2" := "Charging", "3" := "Discharging", "4" := "Not charging", "5" := "Full"]

  /** `batteryStatusMap[code] || "Unknown"`. */
  function StatusName(code: string): (r: string)
    ensures r == "Unknown" || r in BatteryStatusMap.Values
  {
    if code in BatteryStatusMap && BatteryStatusMap[code] != "" then BatteryStatusMap[code] else "Unknown"
  }

  /** The status code after `status:`, or `"0"` when there is none, mapped to its name. */
  function BatteryStatus(battery: string): (r: string)
    ensures Capture(battery, "status:").None? ==> r == "Unknown"
  {
    StatusName(Capture(battery, "status:").GetOr("0"))
  }

  /** Codes 2 to 5 name a state; every other code, and a missing one, reads "Unknown". */
  lemma BatteryStatusNames(battery: string)
    ensures var code := Capture(battery, "status:");
      && (code == Some("2") <==> BatteryStatus(battery) == "Charging")
      && (code == Some("3") <==> BatteryStatus(battery) == "Discharging")
      && (code == Some("4") <==> BatteryStatus(battery) == "Not charging")
      && (code == Some("5") <==> BatteryStatus(battery) == "Full")
      && (code !in {Some("2"), Some("3"), Some("4"), Some("5")} <==> BatteryStatus(battery) == "Unknown")
  {
    var code := Capture(battery, "status:");
    StatusNames(code.GetOr("0"));
    assert code.None? ==> code.GetOr("0") == "0";
    assert code.Some? ==> code.GetOr("0") == code.value;
  }

  /** The names of the status codes, each as an if and only if. */
  lemma StatusNames(code: string)
    ensures code == "2" <==> StatusName(code) == "Charging"
    ensures code == "3" <==> StatusName(code) == "Discharging"
    ensures code == "4" <==> StatusName(code) == "Not charging"
    ensures code == "5" <==> StatusName(code) == "Full"
    ensures code !in {"2", "3", "4", "5"} <==> StatusName(code) == "Unknown"
  {
  }

  /** `wmSize.split(":")[1]?.trim() ?? "Unknown"`, on the trimmed command output. */
  function ScreenSize(wmSize: string): (r: string)
    ensures ':' !in wmSize ==> r == "Unknown"
  {
    var parts := SplitOn(wmSize, ':');
    assert ':' !in wmSize ==> |parts| == 1 by {
      if ':' !in wmSize { SplitJoin([wmSize], ':'); }
    }
    if |parts| > 1 then Trim(parts[1]) else "Unknown"
  }

  /** `Physical size: WxH` yields `WxH`. */
  lemma ScreenSizeOf(caption: string, size: string)
    requires ':' !in caption && ':' !in size
    requires size != [] && !IsWs(size[0]) && !IsWs(size[|size| - 1])
    ensures ScreenSize(caption + ": " + size) == size
  {
    assert caption + ": " + size == caption + [':'] + (" " + size);
    SplitAfterFirst(caption, " " + size, ':');
    assert ':' !in " " + size;
    SplitJoin([" " + size], ':');
    assert TrimStart(" " + size) == TrimStart(size) by { assert (" " + size)[1..] == size; }
    TrimOfTrimmed(size);
  }

  datatype DeviceDetails = DeviceDetails(
    serial: string, brand: string, model: string, batteryLevel: string, batteryStatus: string,
    androidVersion: string, apiLevel: string, screenSize: string, cpuAbi: string,
    uptime: string, connection: string)

  /**
   * `getDeviceDetails`: the outputs of the eight shell commands (None when one fails) and
   * of `adb devices`. One failed shell command fails the whole call (the `Promise.all`);
   * the connection query never fails it.
   */
  function GetDeviceDetails(
    serial: string, brand: Option<string>, model: Option<string>, release: Option<string>,
    sdk: Option<string>, abi: Option<string>, wmSize: Option<string>, battery: Option<string>,
    uptime: Option<string>, devices: Option<string>): (r: Option<DeviceDetails>)
    ensures r.Some? <==> (brand.Some? && model.Some? && release.Some? && sdk.Some? &&
      abi.Some? && wmSize.Some? && battery.Some? && uptime.Some?)
    ensures r.Some? ==> r.value.serial == serial && r.value.connection == ConnectionState(serial, devices)
    ensures r.Some? ==> r.value.brand == Trim(brand.value) && r.value.uptime == Trim(uptime.value)
    ensures r.Some? ==> r.value.model == Trim(model.value) && r.value.androidVersion == Trim(release.value)
    ensures r.Some? ==> r.value.apiLevel == Trim(sdk.value) && r.value.cpuAbi == Trim(abi.value)
    ensures r.Some? ==> r.value.screenSize == ScreenSize(Trim(wmSize.value))
    ensures r.Some? ==> r.value.batteryLevel == BatteryLevel(Trim(battery.value))
    ensures r.Some? ==> r.value.batteryStatus == BatteryStatus(Trim(battery.value))
  {
    if brand.None? || model.None? || release.None? || sdk.None? || abi.None? || wmSize.None? ||
       battery.None? || uptime.None? then None
    else
      var bat := Trim(battery.value);
      Some(DeviceDetails(
        serial, Trim(brand.value), Trim(model.value), BatteryLevel(bat), BatteryStatus(bat),
        Trim(release.value), Trim(sdk.value), ScreenSize(Trim(wmSize.value)), Trim(abi.value),
        Trim(uptime.value), ConnectionState(serial, devices)))
  }

  // ---------------------------------------------------------------- getConnectionState

  /** `lines.find(l => l.startsWith(serial))`, as an index. */
  function FirstLineWith(lines: seq<string>, serial: string, from: nat): (r: Option<nat>)
    decreases |lines| - from
    ensures r.Some? ==> from <= r.value < |lines| && StartsWith(lines[r.value], serial)
    ensures r.Some? ==> forall j :: from <= j < r.value ==> !StartsWith(lines[j], serial)
    ensures r.None? ==> forall j :: from <= j < |lines| ==> !StartsWith(lines[j], serial)
  {
    if from >= |lines| then None
    else if StartsWith(lines[from], serial) then Some(from)
    else FirstLineWith(lines, serial, from + 1)
  }

  /** The second whitespace token of the trimmed line, or `"unknown"`. */
  function SecondToken(line: string): (r: string)
    ensures r != ""
  {
    var parts := SplitWs(Trim(line));
    if |parts| > 1 && parts[1] != "" then parts[1] else "unknown"
  }

  /** A line `serial`, whitespace, `state` gives the state column. */
  lemma SecondTokenOf(serial: string, w: string, state: string)
    requires serial != [] && NoWs(serial) && state != [] && NoWs(state)
    requires w != [] && IsBlank(w)
    ensures SecondToken(serial + w + state) == state
  {
    var line := serial + w + state;
    assert line[0] == serial[0] && line[|line| - 1] == state[|state| - 1];
    TrimOfTrimmed(line);
    SplitWsRun(serial, w, state);
  }

  /**
   * `getConnectionState`: `"unknown"` when the command fails, `"offline"` when no line of its
   * output starts with the serial or the first one that does is empty (a falsy `line`), else
   * the second token of that line.
   */
  function ConnectionState(serial: string, devices: Option<string>): (r: string)
    ensures r != ""
    ensures devices.None? ==> r == "unknown"
  {
    match devices
    case None => "unknown"
    case Some(out) =>
      var lines := SplitOn(out, '\n');
      match FirstLineWith(lines, serial, 0)
      case None => "offline"
      case Some(i) => if lines[i] == "" then "offline" else SecondToken(lines[i])
  }

  /** No line starts with the serial: the device reads as offline. */
  lemma ConnectionStateAbsent(serial: string, out: string)
    requires forall l :: l in SplitOn(out, '\n') ==> !StartsWith(l, serial)
    ensures ConnectionState(serial, Some(out)) == "offline"
  {
    var lines := SplitOn(out, '\n');
    var r := FirstLineWith(lines, serial, 0);
  }

  /** The first line that starts with the serial decides the state. */
  lemma ConnectionStateFirst(serial: string, out: string, i: nat)
    requires i < |SplitOn(out, '\n')| && StartsWith(SplitOn(out, '\n')[i], serial)
    requires forall j :: 0 <= j < i ==> !StartsWith(SplitOn(out, '\n')[j], serial)
    requires SplitOn(out, '\n')[i] != ""
    ensures ConnectionState(serial, Some(out)) == SecondToken(SplitOn(out, '\n')[i])
  {
    var lines := SplitOn(out, '\n');
    var r := FirstLineWith(lines, serial, 0);
    assert r.Some? && r.value == i;
  }

  /**
   * The first line that starts with the serial is empty (only possible for the empty serial):
   * `find` yields `""`, which is falsy, so the device reads as offline.
   */
  lemma ConnectionStateEmptyLine(serial: string, out: string, i: nat)
    requires i < |SplitOn(out, '\n')| && StartsWith(SplitOn(out, '\n')[i], serial)
    requires forall j :: 0 <= j < i ==> !StartsWith(SplitOn(out, '\n')[j], serial)
    requires SplitOn(out, '\n')[i] == ""
    ensures serial == "" && ConnectionState(serial, Some(out)) == "offline"
  {
    var lines := SplitOn(out, '\n');
    var r := FirstLineWith(lines, serial, 0);
    assert r.Some? && r.value == i;
  }

  // ---------------------------------------------------------------- getAdbServerState

  /** `!stdout.includes("daemon not running")`, and false when the command fails. */
  function AdbServerState(devices: Option<string>): (r: bool)
    ensures r <==> devices.Some? && forall i: nat :: !MatchAt(devices.value, i, "daemon not running", false)
  {
    match devices
    case None => false
    case Some(out) => !Contains(out, "daemon not running", false)
  }

  // ---------------------------------------------------------------- mirror sessions

  datatype MirrorResult = MirrorResult(success: bool, error: Option<string>)

  /** `mirrorDevice(serial, options)` over `activeMirrors`; `spawnError` is what `execa` throws, if it throws. */
  method MirrorDevice(mirrors: ProcessRegistry, serial: string, options: seq<string>, spawnError: Option<string>)
    returns (r: MirrorResult)
    requires mirrors.Valid()
    modifies mirrors
    ensures mirrors.Valid()
    ensures old(mirrors.Tracked()) ==> mirrors.Tracked()
    ensures serial in old(mirrors.entries) ==>
      r == MirrorResult(false, Some("A mirror is already running for device " + serial)) && unchanged(mirrors)
    ensures serial !in old(mirrors.entries) && spawnError.Some? ==>
      r == MirrorResult(false, spawnError) && unchanged(mirrors)
    ensures serial !in old(mirrors.entries) && spawnError.None? ==>
      && r == MirrorResult(true, None)
      && mirrors.launches == old(mirrors.launches) + [Launch(serial, "scrcpy", ["-s", serial] + options)]
      && mirrors.entries == old(mirrors.entries)[serial := |old(mirrors.launches)|]
      && mirrors.kills == old(mirrors.kills) && mirrors.exited == old(mirrors.exited)
  {
    if serial in mirrors.entries {
      return MirrorResult(false, Some("A mirror is already running for device " + serial));
    }
    var started := mirrors.Start(serial, "scrcpy", ["-s", serial] + options, spawnError);
    if started.SpawnFailed? {
      return MirrorResult(false, Some(started.message));
    }
    r := MirrorResult(true, None);
  }

  /** `stopMirroring(serial)`: `true` when a mirror was found and killed, `undefined` otherwise. */
  method StopMirroring(mirrors: ProcessRegistry, serial: string) returns (r: Option<bool>)
    requires mirrors.Valid()
    modifies mirrors
    ensures mirrors.Valid()
    ensures old(mirrors.Tracked()) ==> mirrors.Tracked()
    ensures r == (if serial in old(mirrors.entries) then Some(true) else None)
    ensures serial in old(mirrors.entries) ==>
      mirrors.kills == old(mirrors.kills) + [old(mirrors.entries)[serial]] &&
      mirrors.entries == old(mirrors.entries) - {serial}
    ensures serial !in old(mirrors.entries) ==> unchanged(mirrors)
    ensures mirrors.launches == old(mirrors.launches) && mirrors.exited == old(mirrors.exited)
    ensures !mirrors.IsActive(serial)
  {
    var found := mirrors.Stop(serial);
    r := if found then Some(true) else None;
  }

  /** Start, start again, stop, start: the second start is refused and the fourth succeeds. */
  method MirrorLifecycle(serial: string) returns (first: MirrorResult, second: MirrorResult,
                                                  stopped: Option<bool>, third: MirrorResult)
    ensures first.success && !second.success && stopped == Some(true) && third.success
  {
    var mirrors := new ProcessRegistry();
    first := MirrorDevice(mirrors, serial, [], None);
    second := MirrorDevice(mirrors, serial, ["--turn-screen-off"], None);
    stopped := StopMirroring(mirrors, serial);
    third := MirrorDevice(mirrors, serial, [], None);
  }
}
