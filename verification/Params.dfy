/**
 The run-time parameters: parse_parm_json merges a record of texts into them,
 gen_cur_param_json prints them as such a record.
 */
module Params {
  import opened Basics
  import opened Numerals
  import opened Positional

  // ---------- host:port:topic ----------

  function Split(s: string, sep: char): (toks: seq<string>)
    ensures |toks| > 0
    decreases |s|
  {
    if s == [] then [[]]
    else
      var rest := Split(s[1..], sep);
      if s[0] == sep then [[]] + rest else [[s[0]] + rest[0]] + rest[1..]
  }

  datatype HostSpec = HostSpec(host: string, port: int, topic: string) | WrongShape | BadPort

  /** get_telemetry_host. */
  function GetTelemetryHost(hspec: string): HostSpec {
    var toks := Split(hspec, ':');
    if |toks| != 3 then WrongShape
    else
      var port := ParseInt(toks[1], 10);
      if port.error.Some? then BadPort else HostSpec(toks[0], port.value, toks[2])
  }

  function Join(toks: seq<string>, sep: char): string
    requires toks != []
    decreases |toks|
  {
    if |toks| == 1 then toks[0] else toks[0] + [sep] + Join(toks[1..], sep)
  }

  lemma {:induction false} SplitJoins(s: string, sep: char)
    ensures Join(Split(s, sep), sep) == s
    ensures forall t :: t in Split(s, sep) ==> sep !in t
    decreases |s|
  {
    if s != [] {
      var rest := Split(s[1..], sep);
      SplitJoins(s[1..], sep);
      if s[0] == sep {
        assert ([[]] + rest)[1..] == rest;
        assert s == [] + [sep] + s[1..];
      } else {
        assert Split(s, sep)[1..] == rest[1..];
        assert forall t :: t in Split(s, sep) ==> t == [s[0]] + rest[0] || t in rest;
        assert s == [s[0]] + s[1..];
        if |rest| > 1 {
          assert [s[0]] + (rest[0] + [sep] + Join(rest[1..], sep)) == [s[0]] + rest[0] + [sep] + Join(rest[1..], sep);
        }
      }
    }
  }

  /** Splitting undoes joining. */
  lemma {:induction false} SplitOfPrefix(tok: string, rest: string, sep: char)
    requires sep !in tok
    ensures Split(tok, sep) == [tok]
    ensures Split(tok + [sep] + rest, sep) == [tok] + Split(rest, sep)
    decreases |tok|
  {
    var s := tok + [sep] + rest;
    if tok == [] {
      assert s == [sep] + rest;
      assert s[1..] == rest;
    } else {
      assert s[1..] == tok[1..] + [sep] + rest;
      SplitOfPrefix(tok[1..], rest, sep);
      assert [tok[0]] + tok[1..] == tok;
    }
  }

  lemma SplitIsTriple(hspec: string)
    requires |Split(hspec, ':')| == 3
    ensures var toks := Split(hspec, ':'); IsTriple(hspec, toks[0], toks[1], toks[2])
  {
    var toks := Split(hspec, ':');
    SplitJoins(hspec, ':');
    assert Join(toks[1..], ':') == toks[1] + [':'] + Join(toks[1..][1..], ':');
    assert toks[0] + [':'] + (toks[1] + [':'] + toks[2]) == toks[0] + [':'] + toks[1] + [':'] + toks[2];
  }

  lemma TripleIsSplit(hspec: string, host: string, port: string, topic: string)
    requires IsTriple(hspec, host, port, topic)
    ensures Split(hspec, ':') == [host, port, topic]
  {
    assert hspec == host + [':'] + (port + [':'] + topic);
    SplitOfPrefix(host, port + [':'] + topic, ':');
    SplitOfPrefix(port, topic, ':');
    SplitOfPrefix(topic, [], ':');
  }

  /** A port number: decimal digits after an optional sign, worth a number of 64 signed bits. */
  ghost predicate IsPort(text: string, port: int) {
    ReadsSigned(text, 10, port) && -TWO_63 <= port < TWO_63
  }

  /**
   A telemetry host is accepted exactly when it is three colon-free texts joined by
   colons, the middle one a decimal number, and is taken apart into just these.
   */
  lemma TelemetryHostIsTriple(hspec: string, host: string, port: int, topic: string)
    ensures GetTelemetryHost(hspec) == HostSpec(host, port, topic) <==>
            exists text :: IsTriple(hspec, host, text, topic) && IsPort(text, port)
  {
    if GetTelemetryHost(hspec) == HostSpec(host, port, topic) {
      SplitIsTriple(hspec);
      ParseIntMeans(Split(hspec, ':')[1], 10, port);
    }
    if text :| IsTriple(hspec, host, text, topic) && IsPort(text, port) {
      TripleIsSplit(hspec, host, text, topic);
      ParseIntMeans(text, 10, port);
    }
  }

  /** A printed port is read as itself; a middle text with anything but decimal digits after its sign is a bad port. */
  lemma PortIsDecimal(host: string, port: int, topic: string)
    requires ':' !in host && ':' !in topic && -TWO_63 <= port < TWO_63
    ensures GetTelemetryHost(host + [':'] + Itoa(port) + [':'] + topic) == HostSpec(host, port, topic)
  {
    var hspec, text := host + [':'] + Itoa(port) + [':'] + topic, Itoa(port);
    DecimalRoundTrip(port);
    ParseIntMeans(text, 10, port);
    DecimalHasNoColon(port);
    assert IsTriple(hspec, host, text, topic) && IsPort(text, port);
    TelemetryHostIsTriple(hspec, host, port, topic);
  }

  lemma DecimalHasNoColon(n: int)
    ensures ':' !in Itoa(n)
  {
    FormatShape(if n < 0 then -n else n, 10);
  }

  lemma OtherPortsAreBad(host: string, port: string, topic: string)
    requires ':' !in host && ':' !in port && ':' !in topic
    requires var digits := if port != "" && (port[0] == '-' || port[0] == '+') then port[1..] else port;
             digits == "" || exists c :: c in digits && !('0' <= c <= '9')
    ensures GetTelemetryHost(host + [':'] + port + [':'] + topic) == BadPort
  {
    NotDecimal(port);
    TripleIsSplit(host + [':'] + port + [':'] + topic, host, port, topic);
  }

  /** A text that is no triple at all is told apart from one with a bad port. */
  lemma WrongShapeIff(hspec: string)
    ensures GetTelemetryHost(hspec).WrongShape? <==>
            forall host, port, topic :: !IsTriple(hspec, host, port, topic)
  {
    if |Split(hspec, ':')| == 3 {
      SplitIsTriple(hspec);
    }
    if host, port, topic :| IsTriple(hspec, host, port, topic) {
      TripleIsSplit(hspec, host, port, topic);
    }
  }

  ghost predicate IsTriple(hspec: string, host: string, port: string, topic: string) {
    ':' !in host && ':' !in port && ':' !in topic && hspec == host + [':'] + port + [':'] + topic
  }

  // ---------- the records ----------

  datatype AppParams = AppParams(
    debug: int, nosm: int, useTelemetry: int, telemetryHost: string, warntime: int, errtime: int,
    port: string, kvUrl: string, interval: int, smUrl: string, smTimeout: int, smRetries: int, clearOnGap: int)

  datatype IniData = IniData(
    debug: string, nosm: string, useTelemetry: string, telemetryHost: string, warntime: string, errtime: string,
    port: string, kvUrl: string, interval: string, smUrl: string, smTimeout: string, smRetries: string)

  const BLANK := IniData("", "", "", "", "", "", "", "", "", "", "", "")

  // PARAM_START, PARAM_PATCH, PARAM_SYNC.
  datatype Whence = AtStart | Patch | Sync

  // ---------- one field ----------

  function Lower(s: string): string
    decreases |s|
  {
    if s == [] then [] else [if 'A' <= s[0] <= 'Z' then (s[0] as int + 32) as char else s[0]] + Lower(s[1..])
  }

  function ParseBool(s: string): Option<int> {
    var l := Lower(s);
    if l == "0" || l == "no" || l == "off" || l == "false" then Some(0)
    else if l == "1" || l == "yes" || l == "on" || l == "true" then Some(1)
    else None
  }

  function ParseNum(s: string): Option<int> {
    var r := ParseUint(s, 0, TWO_32);
    if r.error.None? then Some(r.value) else None
  }

  function ParseHost(s: string): Option<string> {
    if GetTelemetryHost(s).HostSpec? then Some(s) else None
  }

  /** A field left empty is not supplied. */
  function Supplied<T>(s: string, parsed: Option<T>, current: T): T {
    if s == "" || parsed.None? then current else parsed.value
  }

  predicate Acceptable<T>(s: string, parsed: Option<T>) {
    s == "" || parsed.Some?
  }

  function Complain(ok: bool, name: string): seq<string> {
    if ok then [] else [name]
  }

  // ---------- the whole record ----------

  // The fields in the order in which parse_parm_json looks at them.

  function BadSwitches(j: IniData): seq<string> {
    Complain(Acceptable(j.debug, ParseNum(j.debug)), "debug")
    + Complain(Acceptable(j.nosm, ParseBool(j.nosm)), "nosm")
    + Complain(Acceptable(j.useTelemetry, ParseBool(j.useTelemetry)), "use_telemetry")
    + Complain(Acceptable(j.telemetryHost, ParseHost(j.telemetryHost)), "telemetry_host")
  }

  function BadTimes(j: IniData): seq<string> {
    Complain(Acceptable(j.warntime, ParseNum(j.warntime)), "warntime")
    + Complain(Acceptable(j.errtime, ParseNum(j.errtime)), "errtime")
    + Complain(Acceptable(j.interval, ParseNum(j.interval)), "interval")
  }

  function BadHsm(j: IniData): seq<string> {
    Complain(Acceptable(j.smTimeout, ParseNum(j.smTimeout)), "sm_timeout")
    + Complain(Acceptable(j.smRetries, ParseNum(j.smRetries)), "sm_retries")
  }

  /** The parameters that the error text names. */
  function BadFields(j: IniData, whence: Whence): seq<string> {
    BadSwitches(j) + BadTimes(j) + Complain(j.port == "" || whence != Patch, "port") + BadHsm(j)
  }

  function MergedSwitches(p: AppParams, j: IniData): AppParams {
    p.(debug := Supplied(j.debug, ParseNum(j.debug), p.debug),
       nosm := Supplied(j.nosm, ParseBool(j.nosm), p.nosm),
       useTelemetry := Supplied(j.useTelemetry, ParseBool(j.useTelemetry), p.useTelemetry),
       telemetryHost := Supplied(j.telemetryHost, ParseHost(j.telemetryHost), p.telemetryHost))
  }

  function MergedTimes(p: AppParams, j: IniData): AppParams {
    p.(warntime := Supplied(j.warntime, ParseNum(j.warntime), p.warntime),
       errtime := Supplied(j.errtime, ParseNum(j.errtime), p.errtime),
       interval := Supplied(j.interval, ParseNum(j.interval), p.interval))
  }

  function MergedHsm(p: AppParams, j: IniData): AppParams {
    p.(smTimeout := Supplied(j.smTimeout, ParseNum(j.smTimeout), p.smTimeout),
       smRetries := Supplied(j.smRetries, ParseNum(j.smRetries), p.smRetries))
  }

  function MergedUrls(p: AppParams, j: IniData): AppParams {
    p.(kvUrl := Supplied(j.kvUrl, Some(j.kvUrl), p.kvUrl), smUrl := Supplied(j.smUrl, Some(j.smUrl), p.smUrl))
  }

  function Merged(p: AppParams, j: IniData): AppParams {
    MergedHsm(MergedUrls(MergedTimes(MergedSwitches(p, j), j), j), j)
  }

  /** gen_cur_param_json. */
  function Printed(p: AppParams): IniData {
    IniData(Itoa(p.debug), Itoa(p.nosm), Itoa(p.useTelemetry), p.telemetryHost, Itoa(p.warntime), Itoa(p.errtime),
            p.port, p.kvUrl, Itoa(p.interval), p.smUrl, Itoa(p.smTimeout), Itoa(p.smRetries))
  }

  // ---------- printing and parsing back ----------

  predicate IsUint32(n: int) {
    0 <= n < TWO_32
  }

  predicate IsBool(n: int) {
    n == 0 || n == 1
  }

  predicate WellFormed(p: AppParams) {
    && IsUint32(p.debug) && IsUint32(p.warntime) && IsUint32(p.errtime) && IsUint32(p.interval)
    && IsUint32(p.smTimeout) && IsUint32(p.smRetries)
    && IsBool(p.nosm) && IsBool(p.useTelemetry)
    && (p.telemetryHost == "" || GetTelemetryHost(p.telemetryHost).HostSpec?)
  }

  lemma NumRoundTrip(n: int)
    ensures Acceptable(Itoa(n), ParseNum(Itoa(n))) <==> IsUint32(n)
    ensures IsUint32(n) ==> Itoa(n) != "" && ParseNum(Itoa(n)) == Some(n)
  {
    ItoaRoundTrip(n, TWO_32);
    if n >= 0 {
      FormatShape(n, 10);
    }
  }

  lemma LowerHead(s: string)
    requires s != [] && !('A' <= s[0] <= 'Z')
    ensures |Lower(s)| == |s| && Lower(s)[0] == s[0]
  {
    LowerLength(s);
  }

  lemma {:induction false} LowerLength(s: string)
    ensures |Lower(s)| == |s|
    decreases |s|
  {
    if s != [] {
      LowerLength(s[1..]);
    }
  }

  lemma {:induction false} DecimalHead(n: nat)
    ensures FormatUint(n, 10) != [] && '0' <= FormatUint(n, 10)[0] <= '9'
    decreases n
  {
    if n >= 10 {
      DecimalHead(n / 10);
    }
  }

  lemma BoolRoundTrip(n: int)
    ensures Acceptable(Itoa(n), ParseBool(Itoa(n))) <==> IsBool(n)
    ensures IsBool(n) ==> Itoa(n) != "" && ParseBool(Itoa(n)) == Some(n)
  {
    if n < 0 {
      LowerHead(Itoa(n));
    } else {
      DecimalHead(n);
      LowerHead(Itoa(n));
      if n < 10 {
        assert Itoa(n) == [Digit(n)];
      } else {
        DecimalHead(n / 10);
        assert |Itoa(n)| >= 2;
      }
    }
  }

  /** Every number of the printed record is decimal. */
  lemma PrintedIsDecimal(p: AppParams)
    ensures var j := Printed(p);
            && PrintsDecimal(j.debug, p.debug) && PrintsDecimal(j.nosm, p.nosm)
            && PrintsDecimal(j.useTelemetry, p.useTelemetry)
            && PrintsDecimal(j.warntime, p.warntime) && PrintsDecimal(j.errtime, p.errtime)
            && PrintsDecimal(j.interval, p.interval)
            && PrintsDecimal(j.smTimeout, p.smTimeout) && PrintsDecimal(j.smRetries, p.smRetries)
            && j.telemetryHost == p.telemetryHost && j.port == p.port && j.kvUrl == p.kvUrl && j.smUrl == p.smUrl
  {
    ItoaIsDecimal(p.debug);
    ItoaIsDecimal(p.nosm);
    ItoaIsDecimal(p.useTelemetry);
    ItoaIsDecimal(p.warntime);
    ItoaIsDecimal(p.errtime);
    ItoaIsDecimal(p.interval);
    ItoaIsDecimal(p.smTimeout);
    ItoaIsDecimal(p.smRetries);
  }

  /** The printed record is accepted back exactly when every parameter is one that parsing can produce. */
  lemma RoundTripIffWellFormed(p: AppParams, whence: Whence)
    ensures BadFields(Printed(p), whence) == [] <==> WellFormed(p) && (p.port == "" || whence != Patch)
  {
    NumRoundTrip(p.debug);
    NumRoundTrip(p.warntime);
    NumRoundTrip(p.errtime);
    NumRoundTrip(p.interval);
    NumRoundTrip(p.smTimeout);
    NumRoundTrip(p.smRetries);
    BoolRoundTrip(p.nosm);
    BoolRoundTrip(p.useTelemetry);
  }

  /**
   Read by another instance, the printed record sets everything it can: all but the
   port, clear_on_gap and empty texts.
   */
  lemma PrintedRecordIsCopied(p: AppParams, other: AppParams)
    requires WellFormed(p)
    ensures Merged(other, Printed(p)) ==
            p.(port := other.port, clearOnGap := other.clearOnGap,
               telemetryHost := if p.telemetryHost == "" then other.telemetryHost else p.telemetryHost,
               kvUrl := if p.kvUrl == "" then other.kvUrl else p.kvUrl,
               smUrl := if p.smUrl == "" then other.smUrl else p.smUrl)
  {
    NumRoundTrip(p.debug);
    NumRoundTrip(p.warntime);
    NumRoundTrip(p.errtime);
    NumRoundTrip(p.interval);
    NumRoundTrip(p.smTimeout);
    NumRoundTrip(p.smRetries);
    BoolRoundTrip(p.nosm);
    BoolRoundTrip(p.useTelemetry);
  }

  /** Read by the instance that printed it, the record changes nothing. */
  lemma RoundTripKeeps(p: AppParams)
    requires WellFormed(p)
    ensures Merged(p, Printed(p)) == p
  {
    PrintedRecordIsCopied(p, p);
  }

  /** What an accepted update leaves is again well formed, so it can be printed and read back. */
  lemma MergedStaysWellFormed(p: AppParams, j: IniData)
    requires WellFormed(p)
    ensures WellFormed(Merged(p, j))
  {
    ParseUintBounds(j.debug, 0, TWO_32);
    ParseUintBounds(j.warntime, 0, TWO_32);
    ParseUintBounds(j.errtime, 0, TWO_32);
    ParseUintBounds(j.interval, 0, TWO_32);
    ParseUintBounds(j.smTimeout, 0, TWO_32);
    ParseUintBounds(j.smRetries, 0, TWO_32);
  }

  function Over(later: string, earlier: string): string {
    if later == "" then earlier else later
  }

  /** The fields of b, and those of a that b leaves empty. */
  function Overlaid(a: IniData, b: IniData): IniData {
    IniData(Over(b.debug, a.debug), Over(b.nosm, a.nosm), Over(b.useTelemetry, a.useTelemetry),
            Over(b.telemetryHost, a.telemetryHost), Over(b.warntime, a.warntime), Over(b.errtime, a.errtime),
            Over(b.port, a.port), Over(b.kvUrl, a.kvUrl), Over(b.interval, a.interval), Over(b.smUrl, a.smUrl),
            Over(b.smTimeout, a.smTimeout), Over(b.smRetries, a.smRetries))
  }

  /** Two accepted updates, one after the other, are the one update in which the later fields replace the earlier. */
  lemma MergesCompose(p: AppParams, a: IniData, b: IniData, whence: Whence)
    requires BadFields(b, whence) == []
    ensures Merged(Merged(p, a), b) == Merged(p, Overlaid(a, b))
  {
  }

  /** So the same accepted update twice is the update once. */
  lemma MergeTwiceIsOnce(p: AppParams, j: IniData, whence: Whence)
    requires BadFields(j, whence) == []
    ensures Merged(Merged(p, j), j) == Merged(p, j)
  {
    MergesCompose(p, j, j, whence);
  }

  /** What is not supplied keeps its value, and the port and clear_on_gap always do. */
  lemma UnsuppliedStays(p: AppParams, j: IniData)
    ensures var q := Merged(p, j);
            && q.port == p.port && q.clearOnGap == p.clearOnGap
            && (j.debug == "" ==> q.debug == p.debug) && (j.nosm == "" ==> q.nosm == p.nosm)
            && (j.useTelemetry == "" ==> q.useTelemetry == p.useTelemetry)
                 && (j.telemetryHost == "" ==> q.telemetryHost == p.telemetryHost)
            && (j.warntime == "" ==> q.warntime == p.warntime) && (j.errtime == "" ==> q.errtime == p.errtime)
            && (j.kvUrl == "" ==> q.kvUrl == p.kvUrl) && (j.interval == "" ==> q.interval == p.interval)
            && (j.smUrl == "" ==> q.smUrl == p.smUrl) && (j.smTimeout == "" ==> q.smTimeout == p.smTimeout)
            && (j.smRetries == "" ==> q.smRetries == p.smRetries)
  {
  }

  // ---------- what may change at run time ----------

  /** Of an acceptable record a PATCH refuses the port and nothing else. */
  lemma PatchRefusesOnlyThePort(j: IniData)
    requires BadFields(j, Sync) == []
    ensures BadFields(j, Patch) == if j.port == "" then [] else ["port"]
    ensures BadFields(j, Patch) != [] <==> j.port != ""
  {
  }

  /**
   So each of the other three parameters called read-only takes any legal value from a
   PATCH that supplies only it.
   */
  lemma ReadOnlyCanChange(p: AppParams, url: string, nosm: int, host: string)
    requires url != "" && IsBool(nosm) && GetTelemetryHost(host).HostSpec?
    ensures BadFields(BLANK.(kvUrl := url), Patch) == []
    ensures Merged(p, BLANK.(kvUrl := url)) == p.(kvUrl := url)
    ensures BadFields(BLANK.(nosm := Itoa(nosm)), Patch) == []
    ensures Merged(p, BLANK.(nosm := Itoa(nosm))) == p.(nosm := nosm)
    ensures BadFields(BLANK.(telemetryHost := host), Patch) == []
    ensures Merged(p, BLANK.(telemetryHost := host)) == p.(telemetryHost := host)
  {
    BoolRoundTrip(nosm);
  }

  /** An accepted PATCH leaves those three as they are if and only if it leaves them out or repeats their values. */
  lemma ReadOnlyStayIff(p: AppParams, j: IniData)
    requires BadFields(j, Patch) == []
    ensures var q := Merged(p, j);
            q.kvUrl == p.kvUrl && q.nosm == p.nosm && q.telemetryHost == p.telemetryHost
            <==> && (j.kvUrl == "" || j.kvUrl == p.kvUrl)
                 && (j.nosm == "" || ParseBool(j.nosm) == Some(p.nosm))
                 && (j.telemetryHost == "" || j.telemetryHost == p.telemetryHost)
  {
  }

  // ---------- the operations ----------

  class Settings {
    var appParams: AppParams
    var serverUrlPort: string

    constructor (p: AppParams, port: string)
      ensures appParams == p && serverUrlPort == port
    {
      appParams, serverUrlPort := p, port;
    }

    method GenCurParamJson() returns (pj: IniData)
      ensures pj == Printed(appParams)
    {
      pj := BLANK;
      pj := pj.(debug := Itoa(appParams.debug));
      pj := pj.(nosm := Itoa(appParams.nosm));
      pj := pj.(useTelemetry := Itoa(appParams.useTelemetry));
      pj := pj.(telemetryHost := appParams.telemetryHost);
      pj := pj.(warntime := Itoa(appParams.warntime));
      pj := pj.(errtime := Itoa(appParams.errtime));
      pj := pj.(port := appParams.port);
      pj := pj.(kvUrl := appParams.kvUrl);
      pj := pj.(interval := Itoa(appParams.interval));
      pj := pj.(smUrl := appParams.smUrl);
      pj := pj.(smTimeout := Itoa(appParams.smTimeout));
      pj := pj.(smRetries := Itoa(appParams.smRetries));
    }

    /** One numeric field of the record. */
    static method TakeNum(text: string, name: string, current: int, errs: seq<string>)
        returns (value: int, errs': seq<string>)
      ensures value == Supplied(text, ParseNum(text), current)
      ensures errs' == errs + Complain(Acceptable(text, ParseNum(text)), name)
    {
      value, errs' := current, errs;
      if text != "" {
        var xx := ParseUint(text, 0, TWO_32);
        if xx.error.Some? {
          errs' := errs' + [name];
        } else {
          value := xx.value;
        }
      }
    }

    /** One yes/no field of the record. */
    static method TakeBool(text: string, name: string, current: int, errs: seq<string>)
        returns (value: int, errs': seq<string>)
      ensures value == Supplied(text, ParseBool(text), current)
      ensures errs' == errs + Complain(Acceptable(text, ParseBool(text)), name)
    {
      value, errs' := current, errs;
      if text != "" {
        var lcut := Lower(text);
        if lcut == "0" || lcut == "no" || lcut == "off" || lcut == "false" {
          value := 0;
        } else if lcut == "1" || lcut == "yes" || lcut == "on" || lcut == "true" {
          value := 1;
        } else {
          errs' := errs' + [name];
        }
      }
    }

    /** The telemetry host. */
    static method TakeHost(text: string, name: string, current: string, errs: seq<string>)
        returns (value: string, errs': seq<string>)
      ensures value == Supplied(text, ParseHost(text), current)
      ensures errs' == errs + Complain(Acceptable(text, ParseHost(text)), name)
    {
      value, errs' := current, errs;
      if text != "" {
        if GetTelemetryHost(text).HostSpec? {
          value := text;
        } else {
          errs' := errs' + [name];
        }
      }
    }

    static method TakeSwitches(j: IniData, p: AppParams) returns (tpd: AppParams, errs: seq<string>)
      ensures tpd == MergedSwitches(p, j) && errs == BadSwitches(j)
    {
      var debug, nosm, useTelemetry, host;
      debug, errs := TakeNum(j.debug, "debug", p.debug, []);
      nosm, errs := TakeBool(j.nosm, "nosm", p.nosm, errs);
      useTelemetry, errs := TakeBool(j.useTelemetry, "use_telemetry", p.useTelemetry, errs);
      host, errs := TakeHost(j.telemetryHost, "telemetry_host", p.telemetryHost, errs);
      tpd := p.(debug := debug, nosm := nosm, useTelemetry := useTelemetry, telemetryHost := host);
    }

    static method TakeTimes(j: IniData, p: AppParams) returns (tpd: AppParams, errs: seq<string>)
      ensures tpd == MergedTimes(p, j) && errs == BadTimes(j)
    {
      var warntime, errtime, interval;
      warntime, errs := TakeNum(j.warntime, "warntime", p.warntime, []);
      errtime, errs := TakeNum(j.errtime, "errtime", p.errtime, errs);
      interval, errs := TakeNum(j.interval, "interval", p.interval, errs);
      tpd := p.(warntime := warntime, errtime := errtime, interval := interval);
    }

    static method TakeHsm(j: IniData, p: AppParams) returns (tpd: AppParams, errs: seq<string>)
      ensures tpd == MergedHsm(p, j) && errs == BadHsm(j)
    {
      var timeout, retries;
      timeout, errs := TakeNum(j.smTimeout, "sm_timeout", p.smTimeout, []);
      retries, errs := TakeNum(j.smRetries, "sm_retries", p.smRetries, errs);
      tpd := p.(smTimeout := timeout, smRetries := retries);
    }

    static method TakeUrls(j: IniData, p: AppParams) returns (tpd: AppParams)
      ensures tpd == MergedUrls(p, j)
    {
      tpd := p;
      if j.kvUrl != "" {
        tpd := tpd.(kvUrl := j.kvUrl);
      }
      if j.smUrl != "" {
        tpd := tpd.(smUrl := j.smUrl);
      }
    }

    /** All fields, merged into a copy of the parameters. */
    static method TakeAll(j: IniData, whence: Whence, p: AppParams) returns (tpd: AppParams, errs: seq<string>)
      ensures tpd == Merged(p, j) && errs == BadFields(j, whence)
    {
      var more;
      tpd, errs := TakeSwitches(j, p);
      tpd, more := TakeTimes(j, tpd);
      errs := errs + more;
      tpd := TakeUrls(j, tpd);
      if j.port != "" && whence == Patch {
        errs := errs + ["port"];
      }
      tpd, more := TakeHsm(j, tpd);
      errs := errs + more;
    }

    /**
     parse_parm_json: all of the record or nothing of it. `jdata` is None when
     the text does not decode. `errs` are the parameters the error text names.
     */
    method ParseParmJson(jdata: Option<IniData>, whence: Whence) returns (ret: int, errs: seq<string>)
      modifies this
      ensures ret == 0 <==> jdata.Some? && BadFields(jdata.value, whence) == []
      ensures ret == 0 || ret == -1
      ensures jdata.Some? ==> errs == BadFields(jdata.value, whence)
      ensures ret == 0 ==> appParams == Merged(old(appParams), jdata.value) && serverUrlPort == old(appParams).port
      ensures ret == -1 ==> appParams == old(appParams) && serverUrlPort == old(serverUrlPort)
    {
      errs := [];
      if jdata.None? {
        return -1, errs;
      }
      var bad, tpd := 0, appParams;
      tpd, errs := TakeAll(jdata.value, whence, tpd);
      if errs != [] {
        bad := -1;
      }
      if bad == 0 {
        appParams := tpd;
        serverUrlPort := tpd.port;
      }
      return bad, errs;
    }
  }
}
