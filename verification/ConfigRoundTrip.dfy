/** The web service prints the client's configuration file
    (generateVpnConfig in VpnController.java); the client parses it. */
module ConfigRoundTrip {
  import opened Crypto
  import opened Config
  import opened Decimals

  /** The kinds of line a file is printed from. */
  datatype Line = Remark(text: Text) | Assign(key: Text, value: Text)

  function Setting(key: Text, value: Text): Text {
    key + "=" + value + "\n"
  }

  function Print(line: Line): Text {
    match line
    case Remark(text) => "#" + text + "\n"
    case Assign(key, value) => Setting(key, value)
  }

  function PrintAll(lines: seq<Line>): Text {
    if lines == [] then [] else Print(lines[0]) + PrintAll(lines[1..])
  }

  function Effect(cf: Conf, line: Line): (r: Conf)
    requires Sized(cf)
    ensures Sized(r)
  {
    match line
    case Remark(_) => cf
    case Assign(key, value) => Apply(cf, key, Trim(value))
  }

  function EffectAll(cf: Conf, lines: seq<Line>): (r: Conf)
    requires Sized(cf)
    ensures Sized(r)
    decreases |lines|
  {
    if lines == [] then cf else EffectAll(Effect(cf, lines[0]), lines[1..])
  }

  // The file of the web service, line by line, each within the limits of the parser. Remarks
  // are in UTF-8.

  function Title(): (line: Line)
    ensures Printable(line)
  {
    Remark(" VPN Client Configuration")
  }

  function ServerRemark(): (line: Line)
    ensures Printable(line)
  {
    Remark(" \U{EC}\U{84}\U{9C}\U{EB}\U{B2}\U{84} \U{EC}\U{84}\U{A4}\U{EC}\U{A0}\U{95}")
  }

  function Address(): (line: Line)
    ensures Printable(line)
  {
    Assign("server_address", "3.36.128.179")
  }

  function Port(): (line: Line)
    ensures Printable(line)
  {
    Assign("server_port", "51820")
  }

  function AuthRemark(): (line: Line)
    ensures Printable(line)
  {
    Remark(" \U{EC}\U{9D}\U{B8}\U{EC}\U{A6}\U{9D}")
  }

  function RetryRemark(): (line: Line)
    ensures Printable(line)
  {
    Remark(" \U{EC}\U{9E}\U{AC}\U{EC}\U{97}\U{B0}\U{EA}\U{B2}\U{B0} \U{EC}\U{84}\U{A4}\U{EC}\U{A0}\U{95}")
  }

  function Reconnect(): (line: Line)
    ensures Printable(line)
  {
    Assign("auto_reconnect", "1")
  }

  function Attempts(): (line: Line)
    ensures Printable(line)
  {
    Assign("max_reconnect_attempts", "10")
  }

  function AliveRemark(): (line: Line)
    ensures Printable(line)
  {
    Remark(" Keep-alive \U{EC}\U{84}\U{A4}\U{EC}\U{A0}\U{95}")
  }

  function Interval(): (line: Line)
    ensures Printable(line)
  {
    Assign("keepalive_interval", "30")
  }

  function Timeout(): (line: Line)
    ensures Printable(line)
  {
    Assign("pong_timeout", "60")
  }

  function LogRemark(): (line: Line)
    ensures Printable(line)
  {
    Remark(" \U{EB}\U{A1}\U{9C}\U{EA}\U{B7}\U{B8} \U{EB}\U{A0}\U{88}\U{EB}\U{B2}\U{A8} (ERROR, WARN, INFO, DEBUG)")
  }

  function LogLevel(): (line: Line)
    ensures Printable(line)
  {
    Assign("log_level", "INFO")
  }

  function Head(): seq<Line> {
    [Title(), ServerRemark(), Address(), Port(), AuthRemark()]
  }

  function Tail(): seq<Line> {
    [RetryRemark(), Reconnect(), Attempts(), AliveRemark(), Interval(), Timeout(), LogRemark(), LogLevel()]
  }

  /** generateVpnConfig. */
  function Generate(username: Text): Text {
    PrintAll(Head()) + Setting("username", username) + PrintAll(Tail())
  }

  /** Nothing in the text ends a value early. */
  predicate Plain(s: Text) {
    forall i :: 0 <= i < |s| ==> s[i] != '\0' && s[i] != '#' && s[i] != '\n'
  }

  predicate IsKey(key: Text) {
    && key != []
    && (forall i :: 0 <= i < |key| ==> key[i] != '\0' && key[i] != '#' && key[i] != '\n' && key[i] != '=')
    && !IsSpace(key[0]) && !IsSpace(key[|key| - 1])
  }

  // ---- One setting ----

  /** The value splits into what the statement keeps of it and the spaces it loses. */
  lemma SplitValue(value: Text) returns (a: Text, b: Text)
    ensures value == a + b && AllSpace(b) && Trim(a) == Trim(value)
    ensures a != [] ==> !IsSpace(a[|a| - 1])
  {
    var l, r := TrimIsCore(value);
    var core := Trim(value);
    a, b := if core == [] then [] else l + core, if core == [] then value else r;
    TrimOfPart(a, l, core);
  }

  /** What is left of a value before NUL and '#'. */
  function Cut(value: Text): Text {
    Until(Until(value, '\0'), '#')
  }

  lemma CutSetting(key: Text, value: Text) returns (end: Text)
    requires IsKey(key)
    ensures Cut(Setting(key, value)) == key + "=" + Cut(value) + end && (end == [] || end == "\n")
  {
    var pre, v := key + "=", Until(value, '\0');
    assert '\0' !in pre && '#' !in pre;
    UntilBetween(pre, value, "\n", '\0');
    end := if '\0' in value then [] else "\n";
    UntilBetween(pre, v, end, '#');
    end := if '#' in v then [] else end;
  }

  lemma SettingStatement(key: Text, value: Text, a: Text, b: Text)
    requires IsKey(key)
    requires Cut(value) == a + b && AllSpace(b) && (a != [] ==> !IsSpace(a[|a| - 1]))
    ensures Statement(Setting(key, value)) == key + "=" + a
  {
    var end := CutSetting(key, value);
    var u, s := Cut(Setting(key, value)), key + "=" + a;
    assert u == [] + s + (b + end);
    CoreIsTrim(u, [], s, b + end);
  }

  lemma TrimOfPart(a: Text, l: Text, core: Text)
    requires a == (if core == [] then [] else l + core) && AllSpace(l)
    requires core != [] ==> !IsSpace(core[0]) && !IsSpace(core[|core| - 1])
    ensures Trim(a) == core
  {
    if core != [] {
      assert a == l + core + [];
      CoreIsTrim(a, l, core, []);
    }
  }

  /** A setting within the line limit assigns the value, cut and trimmed. */
  lemma SettingLoads(cf: Conf, key: Text, value: Text)
    requires Sized(cf) && IsKey(key) && '\n' !in value && |key| + |value| + 2 < LINE_SIZE
    ensures Load(cf, Setting(key, value)) == Apply(cf, key, Statement(value))
  {
    var line := Setting(key, value);
    assert line[..|line| - 1] == key + "=" + value;
    LoadLine(cf, line);
    var a, b := SplitValue(Cut(value));
    SettingStatement(key, value, a, b);
    PerformSetting(cf, key, a);
  }

  lemma PerformSetting(cf: Conf, key: Text, a: Text)
    requires Sized(cf) && IsKey(key)
    ensures Perform(cf, key + "=" + a) == Apply(cf, key, Trim(a))
  {
    var s := key + "=" + a;
    UntilIs(s, key, '=');
    assert s[|key| + 1..] == a;
    assert key == [] + key + [];
    CoreIsTrim(key, [], key, []);
  }

  /** A plain value is only trimmed. */
  lemma PlainStatement(value: Text)
    requires Plain(value)
    ensures Statement(value) == Trim(value)
  {
    UntilIs(value, value, '\0');
    UntilIs(value, value, '#');
  }

  // ---- Any printed file ----

  predicate Printable(line: Line) {
    match line
    case Remark(text) => '\n' !in text && |text| + 2 < LINE_SIZE
    case Assign(key, value) => IsKey(key) && Plain(value) && |key| + |value| + 2 < LINE_SIZE
  }

  predicate AllPrintable(lines: seq<Line>) {
    forall i :: 0 <= i < |lines| ==> Printable(lines[i])
  }

  lemma PrintLoads(cf: Conf, line: Line)
    requires Sized(cf) && Printable(line)
    ensures Terminated(Print(line)) && Load(cf, Print(line)) == Effect(cf, line)
  {
    match line
    case Remark(text) =>
      CommentLine(cf, [], text);
      assert [] + "#" + text + "\n" == "#" + text + "\n";
    case Assign(key, value) =>
      SettingLoads(cf, key, value);
      PlainStatement(value);
  }

  /** Parsing a printed file carries out its settings in order, the last one for a key
      winning. */
  lemma {:induction false} PrintAllLoads(cf: Conf, lines: seq<Line>)
    requires Sized(cf) && AllPrintable(lines)
    ensures Load(cf, PrintAll(lines)) == EffectAll(cf, lines)
    decreases |lines|
  {
    if lines != [] {
      PrintLoads(cf, lines[0]);
      LoadAppend(cf, Print(lines[0]), PrintAll(lines[1..]));
      PrintAllLoads(Effect(cf, lines[0]), lines[1..]);
    }
  }

  lemma {:induction false} EffectAppend(cf: Conf, a: seq<Line>, b: seq<Line>)
    requires Sized(cf)
    ensures EffectAll(cf, a + b) == EffectAll(EffectAll(cf, a), b)
    decreases |a|
  {
    if a == [] {
      assert a + b == b;
    } else {
      assert (a + b)[1..] == a[1..] + b;
      EffectAppend(Effect(cf, a[0]), a[1..], b);
    }
  }

  // ---- This file ----

  lemma FixedPrintable()
    ensures AllPrintable(Head()) && AllPrintable(Tail())
  {
  }

  lemma Numbers()
    ensures Atoi("51820") == 51820 && Atoi("1") == 1 && Atoi("10") == 10 && Atoi("30") == 30 && Atoi("60") == 60
  {
    assert "51820"[1..] == "1820" && "1820"[1..] == "820" && "820"[1..] == "20" && "20"[1..] == "0" && "0"[1..] == "";
    assert Digits("51820", 0) == Digits("1820", 5) == Digits("820", 51) == Digits("20", 518) == Digits("0", 5182);
    assert "1"[1..] == "" && "10"[1..] == "0" && "30"[1..] == "0" && "60"[1..] == "0";
    assert Digits("10", 0) == Digits("0", 1) && Digits("30", 0) == Digits("0", 3) && Digits("60", 0) == Digits("0", 6);
  }

  // What each fixed setting does.

  lemma AddressEffect(cf: Conf)
    requires Sized(cf)
    ensures Effect(cf, Address()) == cf.(serverAddress := Strncpy(cf.serverAddress, "3.36.128.179", 255))
  {
  }

  lemma PortEffect(cf: Conf)
    requires Sized(cf)
    ensures Effect(cf, Port()) == cf.(serverPort := 51820)
  {
    Numbers();
  }

  lemma RetryEffects(cf: Conf)
    requires Sized(cf)
    ensures Effect(cf, Reconnect()) == cf.(autoReconnect := 1)
    ensures Effect(cf, Attempts()) == cf.(maxReconnectAttempts := 10)
  {
    Numbers();
  }

  lemma AliveEffects(cf: Conf)
    requires Sized(cf)
    ensures Effect(cf, Interval()) == cf.(keepaliveInterval := 30)
    ensures Effect(cf, Timeout()) == cf.(pongTimeout := 60)
  {
    Numbers();
  }

  lemma LevelEffect(cf: Conf)
    requires Sized(cf)
    ensures Effect(cf, LogLevel()) == cf.(logLevel := 2)
  {
  }

  /** One line at a time. */
  lemma EffectStep(cf: Conf, line: Line, rest: seq<Line>)
    requires Sized(cf)
    ensures EffectAll(cf, [line] + rest) == EffectAll(Effect(cf, line), rest)
  {
    assert ([line] + rest)[1..] == rest;
  }

  lemma HeadEffect(cf: Conf)
    requires Sized(cf)
    ensures EffectAll(cf, Head())
            == cf.(serverAddress := Strncpy(cf.serverAddress, "3.36.128.179", 255), serverPort := 51820)
  {
    var settings := [Address()] + [Port()];
    assert Head() == [Title()] + [ServerRemark()] + settings + [AuthRemark()];
    RemarksAround(cf, Title(), ServerRemark(), settings, AuthRemark());
    EffectStep(cf, Address(), [Port()]);
    EffectStep(Effect(cf, Address()), Port(), []);
    assert [Port()] + [] == [Port()];
    AddressEffect(cf);
    PortEffect(Effect(cf, Address()));
  }

  /** Remarks before and after settings do nothing. */
  lemma RemarksAround(cf: Conf, r1: Line, r2: Line, settings: seq<Line>, r3: Line)
    requires Sized(cf) && r1.Remark? && r2.Remark? && r3.Remark?
    ensures EffectAll(cf, [r1] + [r2] + settings + [r3]) == EffectAll(cf, settings)
  {
    assert [r1] + [r2] + settings + [r3] == [r1] + ([r2] + (settings + [r3]));
    EffectStep(cf, r1, [r2] + (settings + [r3]));
    EffectStep(cf, r2, settings + [r3]);
    EffectAppend(cf, settings, [r3]);
    assert [r3] + [] == [r3];
    EffectStep(EffectAll(cf, settings), r3, []);
  }

  lemma TailEffect(cf: Conf)
    requires Sized(cf)
    ensures EffectAll(cf, Tail()) == cf.(autoReconnect := 1, maxReconnectAttempts := 10, keepaliveInterval := 30,
                                        pongTimeout := 60, logLevel := 2)
  {
    var retries := [RetryRemark(), Reconnect(), Attempts(), AliveRemark()];
    var pings := [Interval(), Timeout(), LogRemark(), LogLevel()];
    assert Tail() == retries + pings;
    EffectAppend(cf, retries, pings);
    RetriesEffect(cf);
    PingsEffect(EffectAll(cf, retries));
  }

  lemma RetriesEffect(cf: Conf)
    requires Sized(cf)
    ensures EffectAll(cf, [RetryRemark(), Reconnect(), Attempts(), AliveRemark()])
            == cf.(autoReconnect := 1, maxReconnectAttempts := 10)
  {
    var cf1 := Effect(cf, Reconnect());
    var cf2 := Effect(cf1, Attempts());
    assert [RetryRemark(), Reconnect(), Attempts(), AliveRemark()]
           == [RetryRemark()] + ([Reconnect()] + ([Attempts()] + ([AliveRemark()] + [])));
    EffectStep(cf, RetryRemark(), [Reconnect()] + ([Attempts()] + ([AliveRemark()] + [])));
    EffectStep(cf, Reconnect(), [Attempts()] + ([AliveRemark()] + []));
    EffectStep(cf1, Attempts(), [AliveRemark()] + []);
    EffectStep(cf2, AliveRemark(), []);
    RetryEffects(cf);
    RetryEffects(cf1);
  }

  lemma PingsEffect(cf: Conf)
    requires Sized(cf)
    ensures EffectAll(cf, [Interval(), Timeout(), LogRemark(), LogLevel()])
            == cf.(keepaliveInterval := 30, pongTimeout := 60, logLevel := 2)
  {
    var cf1 := Effect(cf, Interval());
    var cf2 := Effect(cf1, Timeout());
    assert [Interval(), Timeout(), LogRemark(), LogLevel()]
           == [Interval()] + ([Timeout()] + ([LogRemark()] + ([LogLevel()] + [])));
    EffectStep(cf, Interval(), [Timeout()] + ([LogRemark()] + ([LogLevel()] + [])));
    EffectStep(cf1, Timeout(), [LogRemark()] + ([LogLevel()] + []));
    EffectStep(cf2, LogRemark(), [LogLevel()] + []);
    EffectStep(cf2, LogLevel(), []);
    AliveEffects(cf);
    AliveEffects(cf1);
    LevelEffect(cf2);
  }

  lemma {:induction false} PrintTerminated(lines: seq<Line>)
    ensures Terminated(PrintAll(lines))
  {
    if lines != [] {
      PrintTerminated(lines[1..]);
    }
  }

  /** The file around any terminated text in the place of the name. */
  lemma AroundLoads(cf: Conf, middle: Text)
    requires Sized(cf) && Terminated(middle)
    ensures Load(cf, PrintAll(Head()) + middle + PrintAll(Tail()))
            == EffectAll(Load(EffectAll(cf, Head()), middle), Tail())
  {
    var cf1 := EffectAll(cf, Head());
    var cf2 := Load(cf1, middle);
    FixedPrintable();
    PrintTerminated(Head());
    PrintAllLoads(cf, Head());
    PrintAllLoads(cf2, Tail());
    Onto(cf, PrintAll(Head()), cf1, middle, cf2);
    Onto(cf, PrintAll(Head()) + middle, cf2, PrintAll(Tail()), EffectAll(cf2, Tail()));
  }

  lemma NameLoads(cf: Conf, username: Text)
    requires Sized(cf) && '\n' !in username && |username| <= 501
    ensures Load(cf, Setting("username", username)) == cf.(username := Strncpy(cf.username, Statement(username), 63))
  {
    assert IsKey("username");
    SettingLoads(cf, "username", username);
  }

  /** What the client gets from the file of any user name without a newline that fits the
      line: the generator's settings, and the name cut before NUL and '#', trimmed, and cut to
      its field. */
  lemma GeneratedLoads(cf: Conf, username: Text)
    requires Sized(cf) && '\n' !in username && |username| <= 501
    ensures Load(cf, Generate(username))
            == Conf(Strncpy(cf.serverAddress, "3.36.128.179", 255), 51820,
                    Strncpy(cf.username, Statement(username), 63), 1, 10, 30, 60, 2)
  {
    var cf1 := EffectAll(cf, Head());
    AroundLoads(cf, Setting("username", username));
    HeadEffect(cf);
    NameLoads(cf1, username);
    TailEffect(Load(cf1, Setting("username", username)));
  }

  /** Whatever the name, the settings printed after it come through. */
  lemma LaterSettingsLoad(cf: Conf, username: Text)
    requires Sized(cf)
    ensures var r := Load(cf, Generate(username));
            && r.autoReconnect == 1 && r.maxReconnectAttempts == 10
            && r.keepaliveInterval == 30 && r.pongTimeout == 60 && r.logLevel == 2
  {
    AroundLoads(cf, Setting("username", username));
    TailEffect(Load(EffectAll(cf, Head()), Setting("username", username)));
  }

  // ---- A newline in the name ----

  lemma NewlineSplits(key1: Text, value1: Text, key2: Text, value2: Text)
    ensures Setting(key1, value1 + "\n" + key2 + "=" + value2) == Setting(key1, value1) + Setting(key2, value2)
  {
  }

  /** What follows a newline in the name is parsed as a line of the file. */
  lemma NewlineAddsSetting(cf: Conf, name: Text, key: Text, value: Text)
    requires Sized(cf) && '\n' !in name && |name| <= 501
    requires IsKey(key) && '\n' !in value && |key| + |value| + 2 < LINE_SIZE
    ensures var cf1 := Load(EffectAll(cf, Head()), Setting("username", name));
            Load(cf, Generate(name + "\n" + key + "=" + value)) == EffectAll(Apply(cf1, key, Statement(value)), Tail())
  {
    var cf1 := EffectAll(cf, Head());
    var cf2 := Load(cf1, Setting("username", name));
    var first, second := Setting("username", name), Setting(key, value);
    NewlineSplits("username", name, key, value);
    AroundLoads(cf, first + second);
    SettingLoads(cf2, key, value);
    Onto(cf1, first, cf2, second, Load(cf2, second));
  }

  lemma AddressKey()
    ensures IsKey("server_address")
  {
  }

  /** So the server address of the generated file is not the one the client uses if the name
      sets another after a newline. */
  lemma AddressReplaced(cf: Conf, name: Text, value: Text)
    requires Sized(cf) && '\n' !in name && |name| <= 501
    requires Plain(value) && Trim(value) == value && |value| < 255
    ensures ReadField(Load(cf, Generate(name + "\n" + "server_address" + "=" + value)).serverAddress) == Some(value)
  {
    var cf1 := Load(EffectAll(cf, Head()), Setting("username", name));
    AddressKey();
    NewlineAddsSetting(cf, name, "server_address", value);
    PlainStatement(value);
    TailEffect(Apply(cf1, "server_address", value));
    ReadCopied(cf1.serverAddress, value);
  }

  // ---- Numbers and levels ----

  lemma {:induction false} DigitsAppend(s: Text, d: nat, acc: int)
    requires d < 10 && forall i :: 0 <= i < |s| ==> '0' <= s[i] <= '9'
    ensures Digits(s + [Digit(d)], acc) == 10 * Digits(s, acc) + d
    decreases |s|
  {
    var t := s + [Digit(d)];
    if s == [] {
      assert t[1..] == [];
    } else {
      assert t[1..] == s[1..] + [Digit(d)];
      DigitsAppend(s[1..], d, 10 * acc + (s[0] as int - '0' as int));
    }
  }

  lemma {:induction false} DecimalDigits(n: nat)
    ensures Decimal(n) != [] && forall i :: 0 <= i < |Decimal(n)| ==> '0' <= Decimal(n)[i] <= '9'
    ensures Digits(Decimal(n), 0) == n
  {
    if n < 10 {
      assert Decimal(n)[1..] == [];
    } else {
      DecimalDigits(n / 10);
      DigitsAppend(Decimal(n / 10), n % 10, 0);
    }
  }

  /** Every number, either sign, is read back from its decimal print. */
  lemma AtoiDecimal(n: nat)
    ensures Atoi(Decimal(n)) == n && Atoi("-" + Decimal(n)) == 0 - n
  {
    DecimalDigits(n);
    assert ("-" + Decimal(n))[1..] == Decimal(n);
  }

  /** The names config_print uses for the levels. */
  function LevelName(level: int): Text {
    match level
    case 0 => "ERROR"
    case 1 => "WARN"
    case 2 => "INFO"
    case 3 => "DEBUG"
    case _ => if level < 0 then "-" + Decimal(-level) else Decimal(level)
  }

  /** Printing a level and reading it back gives the level. */
  lemma LevelRoundTrip(level: int)
    ensures Level(LevelName(level)) == level
  {
    var n: nat := if level < 0 then -level else level;
    AtoiDecimal(n);
    DecimalDigits(n);
    if !(0 <= level <= 3) {
      var s := LevelName(level);
      assert s[0] == '-' || '0' <= s[0] <= '9';
    }
  }

  // ---- Exactly which names survive ----

  lemma TrimFrom(s: Text, c: char)
    requires c in Trim(s)
    ensures c in s
  {
    var l, r := TrimIsCore(s);
  }

  /** A statement holds no '#', and no newline when its line ends at the first. */
  lemma StatementClean(line: Text)
    requires line != [] ==> '\n' !in line[..|line| - 1]
    ensures '#' !in Statement(line) && '\n' !in Statement(line)
  {
    var u := Until(Until(line, '\0'), '#');
    if '#' in Statement(line) {
      TrimFrom(u, '#');
    }
    var l, r := TrimIsCore(u);
    var core := Trim(u);
    forall i | 0 <= i < |core| ensures core[i] != '\n' {
      if i < |core| - 1 {
        assert core[i] == u[|l| + i] == line[..|line| - 1][|l| + i];
      }
    }
  }

  /** The name buffer, but for its last byte, holds neither '#' nor newline. */
  predicate NameClean(cf: Conf) {
    |cf.username| == 64 && forall i :: 0 <= i < 63 ==> cf.username[i] != '#' && cf.username[i] != '\n'
  }

  lemma PerformClean(cf: Conf, s: Text)
    requires Sized(cf) && NameClean(cf) && '#' !in s && '\n' !in s
    ensures NameClean(Perform(cf, s))
  {
    var key := Until(s, '=');
    if |key| < |s| {
      var rest := s[|key| + 1..];
      var value := Trim(rest);
      assert '#' !in value && '\n' !in value by {
        if '#' in value {
          TrimFrom(rest, '#');
        }
        if '\n' in value {
          TrimFrom(rest, '\n');
        }
      }
      assert forall i :: 0 <= i < |value| ==> value[i] in value;
    }
  }

  /** Whatever the file says, the name that comes out of it holds neither. */
  lemma {:induction false} LoadClean(cf: Conf, text: Text)
    requires Sized(cf) && NameClean(cf)
    ensures NameClean(Load(cf, text))
    decreases |text|
  {
    if text != [] {
      var n := Fgets(text, 0);
      FgetsStops(text, 0);
      assert text[..n][..n - 1] == text[..n - 1];
      StatementClean(text[..n]);
      PerformClean(cf, Statement(text[..n]));
      LoadClean(ParseLine(cf, text[..n]), text[n..]);
    }
  }

  /** Reading back a copied string: whole when it is shorter than the copied range; cut, and
      only terminated if the byte after it is NUL, when it fills it. */
  lemma ReadCopied(field: Text, value: Text)
    requires field != [] && '\0' !in value
    ensures var n := |field| - 1;
            ReadField(Strncpy(field, value, n))
            == if |value| < n then Some(value)
               else if field[n] == '\0' then Some(value[..n]) else None
  {
    var n := |field| - 1;
    var f := Strncpy(field, value, n);
    if |value| < n {
      UntilIs(f, value, '\0');
    } else if field[n] == '\0' {
      UntilIs(f, value[..n], '\0');
    } else {
      UntilIs(f, f, '\0');
    }
  }

  lemma DefaultClean(lastAddress: char, lastName: char)
    ensures NameClean(Default(lastAddress, lastName)) && Default(lastAddress, lastName).username[63] == lastName
  {
    var name := "vpn_user";
    assert forall i :: 0 <= i < |name| ==> name[i] != '#' && name[i] != '\n';
  }

  lemma TrimShorter(s: Text)
    ensures |Trim(s)| <= |s| && ('\0' in Trim(s) ==> '\0' in s)
  {
    var l, r := TrimIsCore(s);
    if '\0' in Trim(s) {
      TrimFrom(s, '\0');
    }
  }

  lemma LoadedName(cf: Conf, username: Text)
    requires Sized(cf) && Plain(username) && |username| <= 501
    ensures Load(cf, Generate(username)).username == Strncpy(cf.username, Trim(username), 63)
  {
    GeneratedLoads(cf, username);
    PlainStatement(username);
  }

  lemma PlainNameIff(cf: Conf, username: Text)
    requires Sized(cf) && Plain(username) && |username| <= 501
    ensures ReadField(Load(cf, Generate(username)).username) == Some(username)
            <==> Trim(username) == username
                 && (|username| <= 62 || (|username| == 63 && cf.username[63] == '\0'))
  {
    LoadedName(cf, username);
    TrimShorter(username);
    ReadCopied(cf.username, Trim(username));
    CutIff(username, Trim(username));
  }

  lemma CutIff(s: Text, v: Text)
    requires |v| <= |s|
    ensures |v| >= 63 ==> (v[..63] == s <==> v == s && |s| == 63)
  {
    assert |v| == 63 ==> v[..63] == v;
  }

  /** A name read from a clean buffer is plain and fits it. */
  lemma ReadPlain(field: Text, name: Text)
    requires |field| == 64 && forall i :: 0 <= i < 63 ==> field[i] != '#' && field[i] != '\n'
    requires ReadField(field) == Some(name)
    ensures Plain(name) && |name| <= 63
  {
    assert forall i :: 0 <= i < |name| ==> name[i] == field[i] && name[i] in name;
  }

  lemma OtherNamesLost(cf: Conf, username: Text)
    requires Sized(cf) && NameClean(cf) && (!Plain(username) || |username| > 501)
    ensures ReadField(Load(cf, Generate(username)).username) != Some(username)
  {
    LoadClean(cf, Generate(username));
    var out := Load(cf, Generate(username)).username;
    if ReadField(out) == Some(username) {
      ReadPlain(out, username);
    }
  }

  /** The round trip, exactly: reading the file generated for a name leaves that name in the
      configuration field if and only if it has no NUL, '#' or newline, is already trimmed, and has at
      most 62 bytes, or 63 when the byte malloc left at the end of the buffer happens to be
      NUL. */
  lemma NameSurvivesIff(lastAddress: char, lastName: char, username: Text)
    ensures ReadField(Load(Default(lastAddress, lastName), Generate(username)).username) == Some(username)
            <==> && Plain(username) && Trim(username) == username
                 && (|username| <= 62 || (|username| == 63 && lastName == '\0'))
  {
    DefaultClean(lastAddress, lastName);
    if Plain(username) && |username| <= 501 {
      PlainNameIff(Default(lastAddress, lastName), username);
    } else {
      OtherNamesLost(Default(lastAddress, lastName), username);
    }
  }

  // ---- On into the client ----

  /** The client's own copy of the name: at most 63 bytes of the configuration field, into a
      zeroed buffer. */
  function ClientName(cf: Conf): Text
    requires Sized(cf)
  {
    Strncpy(Nuls(64), Until(cf.username[..63], '\0'), 63)
  }

  lemma ClientReads(cf: Conf)
    requires Sized(cf)
    ensures ReadField(ClientName(cf)) == Some(Until(cf.username[..63], '\0'))
  {
    var v := Until(cf.username[..63], '\0');
    ReadCopied(Nuls(64), v);
    assert |v| == 63 ==> v[..63] == v;
  }

  lemma CopiedPart(field: Text, value: Text)
    requires |field| == 64 && '\0' !in value
    ensures Until(Strncpy(field, value, 63)[..63], '\0') == if |value| < 63 then value else value[..63]
  {
    UntilIs(Strncpy(field, value, 63)[..63], if |value| < 63 then value else value[..63], '\0');
  }

  lemma PlainNameReaches(cf: Conf, username: Text)
    requires Sized(cf) && Plain(username) && |username| <= 501
    ensures ReadField(ClientName(Load(cf, Generate(username)))) == Some(username)
            <==> Trim(username) == username && |username| <= 63
  {
    var out := Load(cf, Generate(username));
    LoadedName(cf, username);
    TrimShorter(username);
    CutIff(username, Trim(username));
    CopiedPart(cf.username, Trim(username));
    ClientReads(out);
  }

  lemma OtherNamesStop(cf: Conf, username: Text)
    requires Sized(cf) && NameClean(cf) && (!Plain(username) || |username| > 501)
    ensures ReadField(ClientName(Load(cf, Generate(username)))) != Some(username)
  {
    LoadClean(cf, Generate(username));
    var out := Load(cf, Generate(username));
    ClientReads(out);
    PartPlain(out.username);
  }

  lemma PartPlain(field: Text)
    requires |field| == 64 && forall i :: 0 <= i < 63 ==> field[i] != '#' && field[i] != '\n'
    ensures Plain(Until(field[..63], '\0'))
  {
    var v := Until(field[..63], '\0');
    assert forall i :: 0 <= i < |v| ==> v[i] == field[i] && v[i] in v;
  }

  /** The name reaches the client, terminated, if and only if it has no NUL, '#' or newline,
      is already trimmed and has at most 63 bytes, whatever malloc left in the
      configuration. */
  lemma NameReachesClientIff(lastAddress: char, lastName: char, username: Text)
    ensures ReadField(ClientName(Load(Default(lastAddress, lastName), Generate(username)))) == Some(username)
            <==> Plain(username) && Trim(username) == username && |username| <= 63
  {
    DefaultClean(lastAddress, lastName);
    if Plain(username) && |username| <= 501 {
      PlainNameReaches(Default(lastAddress, lastName), username);
    } else {
      OtherNamesStop(Default(lastAddress, lastName), username);
    }
  }
}
