/** What each line of a configuration file means, key by key and for every value. */
module ConfigSettings {
  import opened Crypto
  import opened Config
  import opened Decimals
  import R = ConfigRoundTrip

  // ---- Numbers ----

  predicate AllDigits(s: Text) {
    forall i :: 0 <= i < |s| ==> '0' <= s[i] <= '9'
  }

  /** The text does not go on with a digit. */
  predicate Ends(rest: Text) {
    rest == [] || !('0' <= rest[0] <= '9')
  }

  /** Digits are read up to the first character that is none. */
  lemma {:induction false} DigitsOf(s: Text, rest: Text, acc: int)
    requires AllDigits(s) && Ends(rest)
    ensures Digits(s + rest, acc) == Digits(s, acc)
    decreases |s|
  {
    if s == [] {
      assert s + rest == rest;
    } else {
      assert (s + rest)[1..] == s[1..] + rest;
      DigitsOf(s[1..], rest, 10 * acc + (s[0] as int - '0' as int));
    }
  }

  function Zeroes(k: nat): (z: Text)
    ensures |z| == k && AllDigits(z)
  {
    seq(k, _ => '0')
  }

  lemma {:induction false} LeadingZeroes(k: nat, s: Text)
    ensures Digits(Zeroes(k) + s, 0) == Digits(s, 0)
  {
    if k == 0 {
      assert Zeroes(0) + s == s;
    } else {
      assert (Zeroes(k) + s)[1..] == Zeroes(k - 1) + s;
      LeadingZeroes(k - 1, s);
    }
  }

  datatype Sign = Unsigned | Plus | Minus

  function Mark(sign: Sign): Text {
    match sign
    case Unsigned => []
    case Plus => ['+']
    case Minus => ['-']
  }

  /** A number as people write them: a sign or none, leading zeroes or none, the decimal
      digits, and anything that is no digit after them. */
  function Numeral(sign: Sign, k: nat, n: nat, rest: Text): Text {
    Mark(sign) + (Zeroes(k) + Decimal(n) + rest)
  }

  function Signed(sign: Sign, n: nat): int {
    if sign.Minus? then 0 - n else n
  }

  lemma DigitsRead(k: nat, n: nat, rest: Text)
    requires Ends(rest)
    ensures var t := Zeroes(k) + Decimal(n) + rest;
            Digits(t, 0) == n && t != [] && '0' <= t[0] <= '9'
  {
    R.DecimalDigits(n);
    LeadingZeroes(k, Decimal(n));
    DigitsOf(Zeroes(k) + Decimal(n), rest, 0);
  }

  lemma SignedRead(sign: Sign, digits: Text)
    requires sign.Unsigned? ==> digits == [] || (!IsSpace(digits[0]) && digits[0] != '-' && digits[0] != '+')
    ensures Atoi(Mark(sign) + digits) == if sign.Minus? then -Digits(digits, 0) else Digits(digits, 0)
  {
    var t := Mark(sign) + digits;
    if sign.Unsigned? {
      assert t == digits;
    } else {
      assert t[1..] == digits && TrimLeft(t) == t;
    }
  }

  lemma AtoiPadded(pad: Text, s: Text)
    requires AllSpace(pad)
    ensures Atoi(pad + s) == Atoi(s)
  {
    TrimLeftSkips(pad, s);
  }

  /** atoi reads them all, after any padding. */
  lemma AtoiReads(pad: Text, sign: Sign, k: nat, n: nat, rest: Text)
    requires AllSpace(pad) && Ends(rest)
    ensures Atoi(pad + Numeral(sign, k, n, rest)) == Signed(sign, n)
  {
    AtoiPadded(pad, Numeral(sign, k, n, rest));
    DigitsRead(k, n, rest);
    SignedRead(sign, Zeroes(k) + Decimal(n) + rest);
  }

  /** A text without a number is 0. */
  lemma AtoiOfNothing(pad: Text, sign: Sign, rest: Text)
    requires AllSpace(pad) && Ends(rest)
    requires sign.Unsigned? ==> rest == [] || (!IsSpace(rest[0]) && rest[0] != '-' && rest[0] != '+')
    ensures Atoi(pad + (Mark(sign) + rest)) == 0
  {
    AtoiPadded(pad, Mark(sign) + rest);
    SignedRead(sign, rest);
  }

  // ---- Every key ----

  predicate Known(key: Text) {
    key in ["server_address", "server_port", "username", "auto_reconnect", "max_reconnect_attempts",
            "keepalive_interval", "pong_timeout", "log_level"]
  }

  lemma KnownIsKey(key: Text)
    requires Known(key)
    ensures R.IsKey(key) && |key| <= 25
  {
    if key == R.Address().key || key == R.Port().key {
    } else if key == "username" {
      assert R.IsKey("username");
    } else if key == R.Reconnect().key || key == R.Attempts().key {
    } else if key == R.Interval().key || key == R.Timeout().key {
    } else {
      assert key == R.LogLevel().key;
    }
  }

  /** The value fits its line and nothing in it ends the line early. */
  predicate Fits(value: Text) {
    '\n' !in value && |value| <= 480
  }

  /** A number n, written as the value of a numeric setting. */
  predicate Writes(value: Text, n: int) {
    Fits(value) && Atoi(Statement(value)) == n
  }

  /** Any way of writing a number will do, with or without a comment after it. */
  lemma NumeralWrites(pad: Text, sign: Sign, k: nat, n: nat, after: Text)
    requires AllSpace(pad) && (after == [] || IsSpace(after[0]) || after[0] == '#') && '\0' !in after
    requires Fits(pad + Numeral(sign, k, n, after))
    ensures Writes(pad + Numeral(sign, k, n, after), Signed(sign, n))
  {
    NumeralCut(pad, sign, k, n, after);
    KeptStart(after);
    TrimmedNumeral(pad, sign, k, n, Until(after, '#'));
  }

  lemma KeptStart(after: Text)
    requires after == [] || IsSpace(after[0]) || after[0] == '#'
    ensures var kept := Until(after, '#'); kept == [] || IsSpace(kept[0])
  {
    assert Until(after, '#') != [] ==> Until(after, '#')[0] == after[0];
  }

  lemma NumeralCut(pad: Text, sign: Sign, k: nat, n: nat, after: Text)
    requires AllSpace(pad) && '\0' !in after
    ensures Statement(pad + Numeral(sign, k, n, after)) == Trim(pad + Numeral(sign, k, n, Until(after, '#')))
  {
    var number := pad + Numeral(sign, k, n, []);
    NumeralAfter(pad, sign, k, n, after);
    NumeralAfter(pad, sign, k, n, Until(after, '#'));
    NumberUncut(pad, sign, k, n);
    CutAfter(number, after);
  }

  lemma NumeralAfter(pad: Text, sign: Sign, k: nat, n: nat, after: Text)
    ensures pad + Numeral(sign, k, n, after) == (pad + Numeral(sign, k, n, [])) + after
  {
    NumeralSplits(sign, k, n, [], after);
    assert [] + after == after;
  }

  /** What is kept of a number and what follows it. */
  lemma CutAfter(number: Text, after: Text)
    requires '\0' !in number && '#' !in number && '\0' !in after
    ensures Statement(number + after) == Trim(number + Until(after, '#'))
  {
    var t, v := number + after, number + Until(after, '#');
    UntilIs(t, t, '\0');
    assert t[..|v|] == v;
    UntilIs(t, v, '#');
  }

  lemma NumberUncut(pad: Text, sign: Sign, k: nat, n: nat)
    requires AllSpace(pad)
    ensures '\0' !in pad + Numeral(sign, k, n, []) && '#' !in pad + Numeral(sign, k, n, [])
  {
    R.DecimalDigits(n);
    assert '\0' !in Decimal(n) && '#' !in Decimal(n);
    assert '\0' !in Zeroes(k) && '#' !in Zeroes(k);
    assert '\0' !in pad && '#' !in pad;
    assert '\0' !in Mark(sign) && '#' !in Mark(sign);
  }

  lemma TrimmedNumeral(pad: Text, sign: Sign, k: nat, n: nat, rest: Text)
    requires AllSpace(pad) && (rest == [] || IsSpace(rest[0]))
    ensures Atoi(Trim(pad + Numeral(sign, k, n, rest))) == Signed(sign, n)
  {
    var a := TrimRight(rest);
    var b := TrimRightCore(rest);
    NumeralSplits(sign, k, n, a, b);
    NumeralCore(sign, k, n, a);
    CoreReads(pad, Numeral(sign, k, n, a), b);
    AtoiReads([], sign, k, n, a);
    assert [] + Numeral(sign, k, n, a) == Numeral(sign, k, n, a);
  }

  lemma NumeralSplits(sign: Sign, k: nat, n: nat, a: Text, b: Text)
    ensures Numeral(sign, k, n, a + b) == Numeral(sign, k, n, a) + b
  {
  }

  lemma CoreReads(pad: Text, core: Text, b: Text)
    requires AllSpace(pad) && AllSpace(b)
    requires core != [] && !IsSpace(core[0]) && !IsSpace(core[|core| - 1])
    ensures Trim(pad + (core + b)) == core
  {
    assert pad + (core + b) == pad + core + b;
    CoreIsTrim(pad + core + b, pad, core, b);
  }

  lemma NumeralCore(sign: Sign, k: nat, n: nat, a: Text)
    requires a != [] ==> !IsSpace(a[|a| - 1])
    ensures var core := Numeral(sign, k, n, a); core != [] && !IsSpace(core[0]) && !IsSpace(core[|core| - 1])
  {
    R.DecimalDigits(n);
    var core := Numeral(sign, k, n, a);
    assert a == [] ==> core[|core| - 1] == Decimal(n)[|Decimal(n)| - 1];
    assert sign.Unsigned? ==> core == Zeroes(k) + Decimal(n) + a;
  }

  lemma Sets(cf: Conf, key: Text, value: Text)
    requires Sized(cf) && (Known(key) || (R.IsKey(key) && |key| <= 25)) && Fits(value)
    ensures Load(cf, R.Setting(key, value)) == Apply(cf, key, Statement(value))
  {
    if Known(key) {
      KnownIsKey(key);
    }
    R.SettingLoads(cf, key, value);
  }

  // Each numeric key sets its own field to the number written, and no other field.

  /** The port is kept modulo 65536. */
  lemma PortSets(cf: Conf, key: Text, value: Text, n: int)
    requires Sized(cf) && key == "server_port" && Writes(value, n)
    ensures Load(cf, R.Setting(key, value)) == cf.(serverPort := n % 65536)
  {
    Sets(cf, key, value);
  }

  lemma ReconnectSets(cf: Conf, key: Text, value: Text, n: int)
    requires Sized(cf) && key == "auto_reconnect" && Writes(value, n)
    ensures Load(cf, R.Setting(key, value)) == cf.(autoReconnect := n)
  {
    Sets(cf, key, value);
  }

  lemma AttemptsSets(cf: Conf, key: Text, value: Text, n: int)
    requires Sized(cf) && key == "max_reconnect_attempts" && Writes(value, n)
    ensures Load(cf, R.Setting(key, value)) == cf.(maxReconnectAttempts := n)
  {
    Sets(cf, key, value);
  }

  lemma IntervalSets(cf: Conf, key: Text, value: Text, n: int)
    requires Sized(cf) && key == "keepalive_interval" && Writes(value, n)
    ensures Load(cf, R.Setting(key, value)) == cf.(keepaliveInterval := n)
  {
    Sets(cf, key, value);
  }

  lemma TimeoutSets(cf: Conf, key: Text, value: Text, n: int)
    requires Sized(cf) && key == "pong_timeout" && Writes(value, n)
    ensures Load(cf, R.Setting(key, value)) == cf.(pongTimeout := n)
  {
    Sets(cf, key, value);
  }

  /** In particular every decimal number, of either sign, is such a value. */
  lemma DecimalWrites(n: nat)
    requires |Decimal(n)| < 480
    ensures Writes(Decimal(n), n) && Writes(['-'] + Decimal(n), 0 - n)
  {
    R.DecimalDigits(n);
    assert '\n' !in Decimal(n);
    assert [] + Numeral(Unsigned, 0, n, []) == Decimal(n);
    assert [] + Numeral(Minus, 0, n, []) == ['-'] + Decimal(n);
    NumeralWrites([], Unsigned, 0, n, []);
    NumeralWrites([], Minus, 0, n, []);
  }

  // ---- Log levels ----

  /** The four names stand for 0 to 3; any other value is read as a number. */
  ghost predicate Means(word: Text, level: int) {
    && (word == "ERROR" ==> level == 0) && (word == "WARN" ==> level == 1)
    && (word == "INFO" ==> level == 2) && (word == "DEBUG" ==> level == 3)
    && (word !in ["ERROR", "WARN", "INFO", "DEBUG"] ==> level == Atoi(word))
  }

  lemma LevelMeans(word: Text)
    ensures Means(word, Level(word))
  {
  }

  lemma LevelSets(cf: Conf, key: Text, value: Text, level: int)
    requires Sized(cf) && key == "log_level" && Fits(value) && Means(Statement(value), level)
    ensures Load(cf, R.Setting(key, value)) == cf.(logLevel := level)
  {
    Sets(cf, key, value);
    LevelMeans(Statement(value));
    assert Apply(cf, key, Statement(value)) == cf.(logLevel := Level(Statement(value)));
  }

  // ---- Texts ----

  lemma StatementUncut(value: Text)
    ensures '\0' !in Statement(value)
  {
    var u := Until(Until(value, '\0'), '#');
    if '\0' in Trim(u) {
      R.TrimFrom(u, '\0');
    }
  }

  /** The text is in the field up to its last byte, which is as it was, with NULs in between; it
      can be read back if it is shorter. */
  ghost predicate Filled(field: Text, before: Text, v: Text) {
    && 0 < |field| == |before| && field[|field| - 1] == before[|field| - 1]
    && (forall i :: |v| <= i < |field| - 1 ==> field[i] == '\0')
    && (|v| < |field| - 1 ==> ReadField(field) == Some(v))
  }

  lemma CopyFills(field: Text, v: Text)
    requires field != [] && '\0' !in v
    ensures Filled(Strncpy(field, v, |field| - 1), field, v)
  {
    R.ReadCopied(field, v);
  }

  /** Each of the two texts fills its field and leaves every other alone. */
  lemma AddressSets(cf: Conf, key: Text, value: Text)
    requires Sized(cf) && key == "server_address" && Fits(value)
    ensures var r := Load(cf, R.Setting(key, value));
            r == cf.(serverAddress := r.serverAddress) && Filled(r.serverAddress, cf.serverAddress, Statement(value))
  {
    Sets(cf, key, value);
    StatementUncut(value);
    CopyFills(cf.serverAddress, Statement(value));
  }

  lemma NameSets(cf: Conf, key: Text, value: Text)
    requires Sized(cf) && key == "username" && Fits(value)
    ensures var r := Load(cf, R.Setting(key, value));
            r == cf.(username := r.username) && Filled(r.username, cf.username, Statement(value))
  {
    Sets(cf, key, value);
    StatementUncut(value);
    CopyFills(cf.username, Statement(value));
  }

  // ---- Everything else ----

  /** Any other key is ignored, whatever its value. */
  lemma UnknownIgnored(cf: Conf, key: Text, value: Text)
    requires Sized(cf) && R.IsKey(key) && !Known(key) && |key| <= 25 && Fits(value)
    ensures Load(cf, R.Setting(key, value)) == cf
  {
    Sets(cf, key, value);
    UnknownApplies(cf, key, Statement(value));
  }

  lemma UnknownApplies(cf: Conf, key: Text, value: Text)
    requires Sized(cf) && !Known(key)
    ensures Apply(cf, key, value) == cf
  {
  }

  /** So is a line without an equals sign before its comment. */
  lemma NoEqualsIgnored(cf: Conf, line: Text)
    requires Sized(cf) && '\n' !in line && |line| < 511 && '=' !in Statement(line + "\n")
    ensures Load(cf, line + "\n") == cf
  {
    assert (line + "\n")[..|line|] == line;
    LoadLine(cf, line + "\n");
    var s := Statement(line + "\n");
    UntilIs(s, s, '=');
  }

  // ---- Lines longer than the buffer ----

  /** What does not fit the buffer is parsed as a line of its own. */
  lemma LongLineSplits(cf: Conf, head: Text, rest: Text)
    requires Sized(cf) && |head| == 511 && '\n' !in head
    ensures Load(cf, head + rest) == Load(ParseLine(cf, head), rest)
  {
    var text := head + rest;
    assert text[..510] == head[..510] && forall i :: 0 <= i < 510 ==> head[..510][i] in head;
    FgetsIff(text, 511);
    assert text[..511] == head && text[511..] == rest;
  }

  /** So the end of a long comment is no comment: a setting there takes effect. */
  lemma LongCommentLeaks(cf: Conf, comment: Text, rest: Text)
    requires Sized(cf) && |comment| == 510 && '\n' !in comment
    ensures Load(cf, ['#'] + comment + rest) == Load(cf, rest)
  {
    var head := ['#'] + comment;
    LongLineSplits(cf, head, rest);
    assert head == [] + "#" + comment;
    CommentIgnored(cf, [], comment);
    BlankIgnored(cf, []);
  }

  /** The settings before any file is read. */
  lemma Defaults(lastAddress: char, lastName: char)
    ensures var cf := Default(lastAddress, lastName);
            && ReadField(cf.serverAddress) == Some("127.0.0.1") && ReadField(cf.username) == Some("vpn_user")
            && cf.serverPort == 51820 && cf.autoReconnect == 1 && cf.maxReconnectAttempts == 10
            && cf.keepaliveInterval == 30 && cf.pongTimeout == 60 && cf.logLevel == 2
  {
    R.ReadCopied(Nuls(255) + [lastAddress], "127.0.0.1");
    R.ReadCopied(Nuls(63) + [lastName], "vpn_user");
  }
}
