/** The client's configuration file: what the parser of VPN/src/common/config.c makes of
    any text, as functions. Text is a sequence of bytes, written as characters below 256. */
module Config {
  import opened Crypto

  type Text = string

  const LINE_SIZE: nat := 512

  predicate IsSpace(c: char) {
    c == ' ' || '\t' <= c <= '\r'
  }

  predicate AllSpace(s: Text) {
    forall i :: 0 <= i < |s| ==> IsSpace(s[i])
  }

  /** The text before the first c (a C string, before its NUL). */
  function Until(s: Text, c: char): (r: Text)
    ensures |r| <= |s| && r == s[..|r|] && c !in r
    ensures |r| < |s| ==> s[|r|] == c
  {
    if s == [] || s[0] == c then [] else [s[0]] + Until(s[1..], c)
  }

  function TrimLeft(s: Text): Text {
    if s == [] || !IsSpace(s[0]) then s else TrimLeft(s[1..])
  }

  function TrimRight(s: Text): Text {
    if s == [] || !IsSpace(s[|s| - 1]) then s else TrimRight(s[..|s| - 1])
  }

  function Trim(s: Text): Text {
    TrimRight(TrimLeft(s))
  }

  // ---- Settings ----

  /** vpn_config_t; the two strings are fixed buffers of 256 and 64 bytes. */
  datatype Conf = Conf(
    serverAddress: Text,
    serverPort: int,
    username: Text,
    autoReconnect: int,
    maxReconnectAttempts: int,
    keepaliveInterval: int,
    pongTimeout: int,
    logLevel: int)

  function Nuls(n: nat): (z: Text)
    ensures |z| == n && forall i :: 0 <= i < n ==> z[i] == '\0'
  {
    seq(n, _ => '\0')
  }

  /** strncpy(field, value, n): copies up to n bytes and pads with NUL up to n. */
  function Strncpy(field: Text, value: Text, n: nat): (r: Text)
    requires n <= |field|
    ensures |r| == |field|
  {
    (if |value| >= n then value[..n] else value + Nuls(n - |value|)) + field[n..]
  }

  /** The string in a buffer, when it is terminated inside it. */
  function ReadField(field: Text): Option<Text> {
    if |Until(field, '\0')| < |field| then Some(Until(field, '\0')) else None
  }

  function Digits(s: Text, acc: int): int {
    if s == [] || !('0' <= s[0] <= '9') then acc
    else Digits(s[1..], 10 * acc + (s[0] as int - '0' as int))
  }

  function Atoi(s: Text): int {
    var t := TrimLeft(s);
    if t == [] then 0
    else if t[0] == '-' then -Digits(t[1..], 0)
    else if t[0] == '+' then Digits(t[1..], 0)
    else Digits(t, 0)
  }

  function Level(value: Text): int {
    if value == "ERROR" then 0
    else if value == "WARN" then 1
    else if value == "INFO" then 2
    else if value == "DEBUG" then 3
    else Atoi(value)
  }

  ghost predicate Sized(cf: Conf) {
    |cf.serverAddress| == 256 && |cf.username| == 64
  }

  /** What one key=value does. */
  function Apply(cf: Conf, key: Text, value: Text): (r: Conf)
    requires Sized(cf)
    ensures Sized(r)
  {
    if key == "server_address" then cf.(serverAddress := Strncpy(cf.serverAddress, value, 255))
    else if key == "server_port" then cf.(serverPort := Atoi(value) % 0x1_0000)
    else if key == "username" then cf.(username := Strncpy(cf.username, value, 63))
    else if key == "auto_reconnect" then cf.(autoReconnect := Atoi(value))
    else if key == "max_reconnect_attempts" then cf.(maxReconnectAttempts := Atoi(value))
    else if key == "keepalive_interval" then cf.(keepaliveInterval := Atoi(value))
    else if key == "pong_timeout" then cf.(pongTimeout := Atoi(value))
    else if key == "log_level" then cf.(logLevel := Level(value))
    else cf
  }

  /** config_create_default. strncpy leaves the last byte of each buffer as malloc had it. */
  function Default(lastAddress: char, lastName: char): (cf: Conf)
    ensures Sized(cf)
  {
    Conf(Strncpy(Nuls(255) + [lastAddress], "127.0.0.1", 255), 51820,
         Strncpy(Nuls(63) + [lastName], "vpn_user", 63), 1, 10, 30, 60, 2)
  }

  // ---- Lines ----

  /** The statement on a line: what is left of it before NUL and '#', trimmed. */
  function Statement(line: Text): Text {
    Trim(Until(Until(line, '\0'), '#'))
  }

  /** key=value, both trimmed; anything else is skipped. */
  function Perform(cf: Conf, s: Text): (r: Conf)
    requires Sized(cf)
    ensures Sized(r)
  {
    var key := Until(s, '=');
    if |key| == |s| then cf
    else Apply(cf, Trim(key), Trim(s[|key| + 1..]))
  }

  function ParseLine(cf: Conf, line: Text): (r: Conf)
    requires Sized(cf)
    ensures Sized(r)
  {
    Perform(cf, Statement(line))
  }

  /** How much of the text fgets takes from position n on: through a newline, to the end, or
      511 bytes. */
  function Fgets(text: Text, n: nat): (m: nat)
    requires n <= |text| && n < LINE_SIZE
    ensures n <= m <= |text| && m < LINE_SIZE
    ensures n < |text| && n < LINE_SIZE - 1 && (n > 0 ==> text[n - 1] != '\n') ==> m > n
    decreases |text| - n
  {
    if n == LINE_SIZE - 1 || n == |text| || (n > 0 && text[n - 1] == '\n') then n else Fgets(text, n + 1)
  }

  /** config_load_from_file on the file's contents. */
  function Load(cf: Conf, text: Text): (r: Conf)
    requires Sized(cf)
    ensures Sized(r)
    decreases |text|
  {
    if text == [] then cf
    else
      var n := Fgets(text, 0);
      Load(ParseLine(cf, text[..n]), text[n..])
  }

  // ---- Trimming ----

  /** The six characters isspace accepts: tab, newline, vertical tab, form feed, carriage
      return and blank. */
  lemma SpacesAre(c: char)
    ensures IsSpace(c) <==> c as int in [9, 10, 11, 12, 13, 32]
  {
  }

  /** s is a core between spaces that itself neither starts nor ends with one. */
  ghost predicate IsCore(s: Text, l: Text, core: Text, r: Text) {
    && s == l + core + r && AllSpace(l) && AllSpace(r)
    && (core != [] ==> !IsSpace(core[0]) && !IsSpace(core[|core| - 1]))
  }

  lemma {:induction false} TrimLeftCore(s: Text) returns (l: Text)
    ensures s == l + TrimLeft(s) && AllSpace(l)
    ensures TrimLeft(s) != [] ==> !IsSpace(TrimLeft(s)[0])
  {
    if s == [] || !IsSpace(s[0]) {
      l := [];
    } else {
      var l' := TrimLeftCore(s[1..]);
      l := [s[0]] + l';
    }
  }

  lemma {:induction false} TrimRightCore(s: Text) returns (r: Text)
    ensures s == TrimRight(s) + r && AllSpace(r)
    ensures TrimRight(s) != [] ==> !IsSpace(TrimRight(s)[|TrimRight(s)| - 1])
  {
    if s == [] || !IsSpace(s[|s| - 1]) {
      r := [];
    } else {
      var r' := TrimRightCore(s[..|s| - 1]);
      r := r' + [s[|s| - 1]];
    }
  }

  /** Trimming gives the core. */
  lemma TrimIsCore(s: Text) returns (l: Text, r: Text)
    ensures IsCore(s, l, Trim(s), r)
  {
    l := TrimLeftCore(s);
    r := TrimRightCore(TrimLeft(s));
    assert Trim(s) != [] ==> Trim(s)[0] == TrimLeft(s)[0];
  }

  lemma {:induction false} TrimLeftSkips(l: Text, s: Text)
    requires AllSpace(l)
    ensures TrimLeft(l + s) == TrimLeft(s)
  {
    if l == [] {
      assert l + s == s;
    } else {
      assert (l + s)[1..] == l[1..] + s;
      TrimLeftSkips(l[1..], s);
    }
  }

  lemma {:induction false} TrimRightSkips(s: Text, r: Text)
    requires AllSpace(r)
    ensures TrimRight(s + r) == TrimRight(s)
  {
    if r == [] {
      assert s + r == s;
    } else {
      var n := |r| - 1;
      assert (s + r)[..|s + r| - 1] == s + r[..n];
      TrimRightSkips(s, r[..n]);
    }
  }

  /** And it is the only one. */
  lemma CoreIsTrim(s: Text, l: Text, core: Text, r: Text)
    requires IsCore(s, l, core, r)
    ensures Trim(s) == core
  {
    assert s == l + (core + r);
    TrimLeftSkips(l, core + r);
    if core == [] {
      assert core + r == r + [];
      TrimLeftSkips(r, []);
    } else {
      TrimRightSkips(core, r);
    }
  }

  /** Spaces around a text do not matter. */
  lemma TrimPadded(l: Text, s: Text, r: Text)
    requires AllSpace(l) && AllSpace(r)
    ensures Trim(l + s + r) == Trim(s)
  {
    var a, b := TrimIsCore(s);
    assert l + s + r == (l + a) + Trim(s) + (b + r);
    CoreIsTrim(l + s + r, l + a, Trim(s), b + r);
  }

  // ---- Cutting ----

  lemma {:induction false} UntilIs(s: Text, r: Text, c: char)
    requires |r| <= |s| && r == s[..|r|] && c !in r && (|r| < |s| ==> s[|r|] == c)
    ensures Until(s, c) == r
  {
    if r != [] {
      assert c !in r[1..];
      UntilIs(s[1..], r[1..], c);
      assert s[0] == r[0];
    }
  }

  /** A text between two others without c is cut where it was. */
  lemma UntilBetween(l: Text, s: Text, r: Text, c: char)
    requires c !in l && c !in r
    ensures Until(l + s + r, c) == l + Until(s, c) + if c in s then [] else r
  {
    var u := Until(s, c);
    if |u| < |s| {
      UntilIs(l + s + r, l + u, c);
    } else {
      UntilIs(l + s + r, l + s + r, c);
    }
  }

  /** So a text with spaces around it is cut at the same place, give or take the spaces. */
  lemma UntilPadded(l: Text, s: Text, r: Text, c: char)
    requires AllSpace(l) && AllSpace(r) && !IsSpace(c)
    ensures Until(l + s + r, c) == l + Until(s, c) + if c in s then [] else r
  {
    assert c !in l && c !in r;
    UntilBetween(l, s, r, c);
  }

  // ---- What a line can carry without effect ----

  lemma PaddedStatement(l: Text, s: Text, r: Text)
    requires AllSpace(l) && AllSpace(r)
    ensures Statement(l + s + r) == Statement(s)
  {
    var s1 := Until(s, '\0');
    var r1 := if '\0' in s then [] else r;
    UntilPadded(l, s, r, '\0');
    UntilPadded(l, s1, r1, '#');
    TrimPadded(l, Until(s1, '#'), if '#' in s1 then [] else r1);
  }

  lemma CommentedStatement(s: Text, comment: Text)
    ensures Statement(s + "#" + comment) == Statement(s)
  {
    var whole, u := s + "#" + comment, Until(s, '\0');
    if |u| < |s| {
      UntilIs(whole, u, '\0');
    } else {
      assert whole == s + ("#" + comment);
      var v := Until(whole, '\0');
      BeyondPrefix(s, "#" + comment, v);
      assert u == s && v[..|s|] == whole[..|s|] == s && v[|s|] == whole[|s|];
      HashedPrefix(s, v);
      assert Until(v, '#') == Until(u, '#');
    }
  }

  lemma HashedPrefix(s: Text, v: Text)
    requires |s| < |v| && v[..|s|] == s && v[|s|] == '#'
    ensures Until(v, '#') == Until(s, '#')
  {
    var u := Until(s, '#');
    assert v[..|u|] == s[..|u|];
    UntilIs(v, u, '#');
  }

  /** When neither s nor the character after it is NUL, the string reaches past both. */
  lemma BeyondPrefix(s: Text, t: Text, v: Text)
    requires v == Until(s + t, '\0') && '\0' !in s && t != [] && t[0] != '\0'
    ensures |v| > |s|
  {
  }

  /** Spaces around a line mean nothing. */
  lemma Padding(cf: Conf, l: Text, s: Text, r: Text)
    requires Sized(cf) && AllSpace(l) && AllSpace(r)
    ensures ParseLine(cf, l + s + r) == ParseLine(cf, s)
  {
    PaddedStatement(l, s, r);
  }

  /** From a '#' on, a line means nothing. */
  lemma CommentIgnored(cf: Conf, s: Text, comment: Text)
    requires Sized(cf)
    ensures ParseLine(cf, s + "#" + comment) == ParseLine(cf, s)
  {
    CommentedStatement(s, comment);
  }

  lemma BlankIgnored(cf: Conf, blank: Text)
    requires Sized(cf) && AllSpace(blank)
    ensures ParseLine(cf, blank) == cf
  {
    assert blank + [] + [] == blank;
    Padding(cf, blank, [], []);
  }

  // ---- Parsing is a fold over lines ----

  ghost predicate Terminated(text: Text) {
    text == [] || text[|text| - 1] == '\n'
  }

  lemma {:induction false} FgetsPrefix(a: Text, b: Text, n: nat)
    requires Terminated(a) && n <= |a| && n < LINE_SIZE
    ensures a != [] ==> Fgets(a + b, n) == Fgets(a, n)
    decreases |a| - n
  {
    if n < |a| && n < LINE_SIZE - 1 {
      FgetsPrefix(a, b, n + 1);
    }
  }

  /** Parsing two texts, the first ending in a newline, is parsing the second on top of the
      first, whatever their lines. */
  lemma {:induction false} LoadAppend(cf: Conf, a: Text, b: Text)
    requires Sized(cf) && Terminated(a)
    ensures Load(cf, a + b) == Load(Load(cf, a), b)
    decreases |a|
  {
    if a == [] {
      assert a + b == b;
    } else {
      var n := Fgets(a, 0);
      FgetsPrefix(a, b, 0);
      assert (a + b)[..n] == a[..n];
      assert (a + b)[n..] == a[n..] + b;
      LoadAppend(ParseLine(cf, a[..n]), a[n..], b);
    }
  }

  lemma {:induction false} FgetsLine(line: Text, n: nat)
    requires 0 < |line| < LINE_SIZE && n <= |line| && '\n' !in line[..|line| - 1]
    ensures Fgets(line, n) == |line|
    decreases |line| - n
  {
    if n < |line| {
      assert n > 0 ==> line[n - 1] in line[..|line| - 1];
      FgetsLine(line, n + 1);
    }
  }

  /** One line of at most 511 bytes is parsed as such. */
  lemma LoadLine(cf: Conf, line: Text)
    requires Sized(cf) && 0 < |line| < LINE_SIZE && '\n' !in line[..|line| - 1]
    ensures Load(cf, line) == ParseLine(cf, line)
  {
    FgetsLine(line, 0);
    assert line[..|line|] == line && line[|line|..] == [];
  }

  ghost predicate Gives(cf: Conf, text: Text, r: Conf) {
    Sized(cf) && Load(cf, text) == r
  }

  lemma Onto(cf: Conf, a: Text, x: Conf, b: Text, r: Conf)
    requires Terminated(a) && Gives(cf, a, x) && Gives(x, b, r)
    ensures Gives(cf, a + b, r)
  {
    LoadAppend(cf, a, b);
  }

  lemma InsertNeutral(cf: Conf, a: Text, x: Conf, c: Text, b: Text, r: Conf)
    requires Terminated(a) && Terminated(c)
    requires Gives(cf, a, x) && Gives(x, c, x) && Gives(x, b, r)
    ensures Gives(cf, a + c + b, r)
  {
    Onto(cf, a, x, c, x);
    Onto(cf, a + c, x, b, r);
  }

  lemma CommentLine(cf: Conf, pad: Text, comment: Text)
    requires Sized(cf) && AllSpace(pad) && '\n' !in pad && '\n' !in comment
    requires |pad| + |comment| + 2 < LINE_SIZE
    ensures Load(cf, pad + "#" + comment + "\n") == cf
  {
    var line := pad + "#" + comment + "\n";
    assert line[..|line| - 1] == pad + "#" + comment;
    LoadLine(cf, line);
    assert line == pad + "#" + (comment + "\n");
    CommentIgnored(cf, pad, comment + "\n");
    BlankIgnored(cf, pad);
  }

  lemma BlankLine(cf: Conf, pad: Text)
    requires Sized(cf) && AllSpace(pad) && '\n' !in pad && |pad| + 1 < LINE_SIZE
    ensures Load(cf, pad + "\n") == cf
  {
    assert (pad + "\n")[..|pad|] == pad;
    LoadLine(cf, pad + "\n");
    BlankIgnored(cf, pad + "\n");
  }

  /** Comment lines and blank lines can be put anywhere between lines. */
  lemma InsertIgnored(cf: Conf, a: Text, pad: Text, comment: Text, b: Text)
    requires Sized(cf) && Terminated(a) && AllSpace(pad) && '\n' !in pad && '\n' !in comment
    requires |pad| + |comment| + 2 < LINE_SIZE
    ensures Load(cf, a + (pad + "#" + comment + "\n") + b) == Load(cf, a + b)
    ensures Load(cf, a + (pad + "\n") + b) == Load(cf, a + b)
  {
    var x := Load(cf, a);
    Onto(cf, a, x, b, Load(x, b));
    CommentLine(x, pad, comment);
    InsertNeutral(cf, a, x, pad + "#" + comment + "\n", b, Load(x, b));
    BlankLine(x, pad);
    InsertNeutral(cf, a, x, pad + "\n", b, Load(x, b));
  }

  /** A line is taken through its newline, or to the end of the file, or after 511 bytes,
      whichever comes first. */
  lemma FgetsIff(text: Text, m: nat)
    requires text != []
    ensures Fgets(text, 0) == m <==>
              && 0 < m <= |text| && m <= 511 && '\n' !in text[..m - 1]
              && (m == |text| || m == 511 || text[m - 1] == '\n')
  {
    FgetsStops(text, 0);
    var k := Fgets(text, 0);
    assert forall i, j :: 0 <= i < j <= |text| && '\n' !in text[..j] ==> text[i] != '\n' by {
      forall i, j | 0 <= i < j <= |text| && '\n' !in text[..j] ensures text[i] != '\n' {
        assert text[i] == text[..j][i];
      }
    }
  }

  lemma {:induction false} FgetsStops(text: Text, n: nat)
    requires n <= |text| && n < LINE_SIZE && (n > 0 ==> '\n' !in text[..n - 1])
    ensures var m := Fgets(text, n);
            && (m > 0 ==> '\n' !in text[..m - 1])
            && (m == |text| || m == 511 || (m > 0 && text[m - 1] == '\n'))
    decreases |text| - n
  {
    if !(n == LINE_SIZE - 1 || n == |text| || (n > 0 && text[n - 1] == '\n')) {
      assert n > 0 ==> text[..n] == text[..n - 1] + [text[n - 1]];
      FgetsStops(text, n + 1);
    }
  }

  ghost predicate IsLine(line: Text) {
    0 < |line| < LINE_SIZE && line[|line| - 1] == '\n' && '\n' !in line[..|line| - 1]
  }

  /** A line can be exchanged for any with the same statement. */
  lemma SameStatement(cf: Conf, a: Text, x: Text, y: Text, b: Text)
    requires Sized(cf) && Terminated(a) && IsLine(x) && IsLine(y) && Statement(x) == Statement(y)
    ensures Load(cf, a + x + b) == Load(cf, a + y + b)
  {
    var before := Load(cf, a);
    var after := ParseLine(before, x);
    LoadLine(before, x);
    LoadLine(before, y);
    Onto(cf, a, before, x, after);
    Onto(cf, a, before, y, after);
    Onto(cf, a + x, after, b, Load(after, b));
    Onto(cf, a + y, after, b, Load(after, b));
  }

  /** In any file, spaces around a line that fits mean nothing. */
  lemma PaddingInFile(cf: Conf, a: Text, l: Text, s: Text, r: Text, b: Text)
    requires Sized(cf) && Terminated(a) && AllSpace(l) && AllSpace(r) && '\n' !in l + s + r
    requires |l + s + r| + 1 < LINE_SIZE
    ensures Load(cf, a + (l + s + r + "\n") + b) == Load(cf, a + (s + "\n") + b)
  {
    var x, y := l + s + r + "\n", s + "\n";
    assert x[..|x| - 1] == l + s + r;
    assert y[..|y| - 1] == s && forall c :: c in s ==> c in l + s + r;
    assert x == l + s + (r + "\n") && y == [] + s + "\n";
    PaddedStatement(l, s, r + "\n");
    PaddedStatement([], s, "\n");
    SameStatement(cf, a, x, y, b);
  }

  /** Nor does a comment at the end of one. */
  lemma CommentInFile(cf: Conf, a: Text, s: Text, comment: Text, b: Text)
    requires Sized(cf) && Terminated(a) && '\n' !in s && '\n' !in comment
    requires |s| + |comment| + 2 < LINE_SIZE
    ensures Load(cf, a + (s + "#" + comment + "\n") + b) == Load(cf, a + (s + "\n") + b)
  {
    var x, y := s + "#" + comment + "\n", s + "\n";
    assert x[..|x| - 1] == s + "#" + comment;
    assert y[..|y| - 1] == s;
    assert x == s + "#" + (comment + "\n") && y == [] + s + "\n";
    CommentedStatement(s, comment + "\n");
    PaddedStatement([], s, "\n");
    SameStatement(cf, a, x, y, b);
  }
}
