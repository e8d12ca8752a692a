/** The configuration parser as it runs: one 512-byte line buffer, cut and trimmed in place
    (VPN/src/common/config.c). */
module ConfigLoader {
  import opened Crypto
  import C = Config

  /** The C string that starts at off. */
  ghost function CStr(b: seq<char>, off: nat): seq<char>
    requires off <= |b|
  {
    C.Until(b[off..], '\0')
  }

  /** There is a NUL at or after off. */
  ghost predicate IsString(b: seq<char>, off: nat) {
    off <= |b| && off + |CStr(b, off)| < |b|
  }

  lemma CStrIs(b: seq<char>, off: nat, s: seq<char>)
    requires off + |s| < |b| && b[off..off + |s|] == s && '\0' !in s && b[off + |s|] == '\0'
    ensures IsString(b, off) && CStr(b, off) == s
  {
    assert b[off..][..|s|] == b[off..off + |s|];
    C.UntilIs(b[off..], s, '\0');
  }

  lemma CStrHas(b: seq<char>, off: nat)
    requires IsString(b, off)
    ensures var n := |CStr(b, off)|; b[off..off + n] == CStr(b, off) && b[off + n] == '\0' && '\0' !in CStr(b, off)
  {
    var n := |CStr(b, off)|;
    assert b[off..][..n] == b[off..off + n];
    assert b[off..][n] == b[off + n];
  }

  /** strchr: the first c of the string, or its NUL. */
  method Strchr(str: array<char>, off: nat, c: char) returns (i: nat)
    requires IsString(str[..], off)
    ensures off <= i <= off + |CStr(str[..], off)|
    ensures i == off + |C.Until(CStr(str[..], off), c)|
    ensures str[off..i] == C.Until(CStr(str[..], off), c)
  {
    ghost var s := CStr(str[..], off);
    CStrHas(str[..], off);
    assert str[off..off + |s|] == s;
    i := off;
    while str[i] != '\0' && str[i] != c
      invariant off <= i <= off + |s|
      invariant c !in s[..i - off]
      decreases off + |s| - i
    {
      assert str[i] == s[i - off];
      assert s[..i + 1 - off] == s[..i - off] + [s[i - off]];
      i := i + 1;
    }
    assert i < off + |s| ==> str[i] == s[i - off] && s[i - off] in s;
    assert str[off..i] == s[..i - off];
    C.UntilIs(s, s[..i - off], c);
  }

  /** What in-place trimming keeps: everything before the string and after its NUL. */
  ghost predicate KeepsRest(before: seq<char>, after: seq<char>, off: nat)
    requires IsString(before, off)
  {
    && |after| == |before|
    && after[..off] == before[..off]
    && after[off + |CStr(before, off)|..] == before[off + |CStr(before, off)|..]
  }

  /** The first character that is no space, or the NUL. */
  method SkipSpaces(str: array<char>, off: nat) returns (start: nat)
    requires IsString(str[..], off)
    ensures var s := CStr(str[..], off);
            && off <= start <= off + |s| && C.AllSpace(s[..start - off])
            && (start < off + |s| ==> !C.IsSpace(s[start - off]))
  {
    ghost var s := CStr(str[..], off);
    CStrHas(str[..], off);
    start := off;
    while C.IsSpace(str[start])
      invariant off <= start <= off + |s|
      invariant C.AllSpace(s[..start - off])
      decreases off + |s| - start
    {
      assert str[start] == str[off..off + |s|][start - off];
      start := start + 1;
    }
    assert start < off + |s| ==> str[start] == str[off..off + |s|][start - off];
  }

  /** The last character that is no space, from one that is none. */
  method LastNonSpace(str: array<char>, off: nat, start: nat) returns (end: nat)
    requires IsString(str[..], off)
    requires var s := CStr(str[..], off); off <= start < off + |s| && !C.IsSpace(s[start - off])
    ensures var s := CStr(str[..], off);
            start <= end < off + |s| && C.AllSpace(s[end + 1 - off..]) && !C.IsSpace(s[end - off])
  {
    ghost var s := CStr(str[..], off);
    CStrHas(str[..], off);
    end := start;
    while str[end] != '\0'
      invariant start <= end <= off + |s|
      decreases off + |s| - end
    {
      end := end + 1;
    }
    LengthIs(str[..], off, end);
    end := end - 1;
    assert s[end + 1 - off..] == [];
    assert str[off..off + |s|] == s;
    while end > start && C.IsSpace(str[end])
      invariant start <= end < off + |s|
      invariant C.AllSpace(s[end + 1 - off..])
    {
      assert str[end] == s[end - off];
      assert s[end - off..] == [s[end - off]] + s[end + 1 - off..];
      end := end - 1;
    }
    assert str[end] == s[end - off];
  }

  /** trim on the string at off: skip spaces, cut behind the last other character, move the
      rest to the front. */
  method Trim(str: array<char>, off: nat)
    requires IsString(str[..], off)
    modifies str
    ensures IsString(str[..], off) && CStr(str[..], off) == C.Trim(old(CStr(str[..], off)))
    ensures KeepsRest(old(str[..]), str[..], off)
  {
    ghost var b, s := str[..], CStr(str[..], off);
    CStrHas(b, off);
    var start := SkipSpaces(str, off);
    if str[start] == '\0' {
      str[off] := '\0';
      AllSpaces(b, off, start);
      CStrIs(str[..], off, []);
      return;
    }
    assert start < off + |s|;
    var end := LastNonSpace(str, off, start);
    CutAndMove(str, off, start, end);
  }

  /** Keep the characters from start to end. */
  method CutAndMove(str: array<char>, off: nat, start: nat, end: nat)
    requires IsString(str[..], off)
    requires var s := CStr(str[..], off);
             && off <= start <= end < off + |s| && C.AllSpace(s[..start - off]) && C.AllSpace(s[end + 1 - off..])
             && !C.IsSpace(s[start - off]) && !C.IsSpace(s[end - off])
    modifies str
    ensures IsString(str[..], off) && CStr(str[..], off) == C.Trim(old(CStr(str[..], off)))
    ensures KeepsRest(old(str[..]), str[..], off)
  {
    ghost var b, core := str[..], str[start..end + 1];
    CoreAt(b, off, start, end);
    assert core == b[start..end + 1];
    str[end + 1] := '\0';
    assert str[start..end + 2] == core + "\0";
    assert str[..] == b[end + 1 := '\0'];
    Move(str, off, start, end + 2 - start);
    Moved(b, str[..], off, end + 1, core);
  }

  lemma CoreAt(b: seq<char>, off: nat, start: nat, end: nat)
    requires IsString(b, off)
    requires var s := CStr(b, off);
             && off <= start <= end < off + |s| && C.AllSpace(s[..start - off]) && C.AllSpace(s[end + 1 - off..])
             && !C.IsSpace(s[start - off]) && !C.IsSpace(s[end - off])
    ensures b[start..end + 1] == C.Trim(CStr(b, off)) && '\0' !in b[start..end + 1]
  {
    var s := CStr(b, off);
    var core := s[start - off..end + 1 - off];
    CStrHas(b, off);
    assert s == s[..start - off] + core + s[end + 1 - off..];
    C.CoreIsTrim(s, s[..start - off], core, s[end + 1 - off..]);
    forall k | 0 <= k < |core| ensures b[start..end + 1][k] == core[k] {
      assert core[k] == s[start - off + k] == b[off..off + |s|][start - off + k];
    }
  }

  /** Where the kept characters and a NUL now stand at the front of the string. */
  lemma Moved(b: seq<char>, b': seq<char>, off: nat, cut: nat, core: seq<char>)
    requires IsString(b, off) && '\0' !in core && |b'| == |b|
    requires off + |core| <= cut <= off + |CStr(b, off)|
    requires b'[..off] == b[..off]
    requires b'[off..off + |core| + 1] == core + "\0"
    requires b'[off + |core| + 1..] == b[cut := '\0'][off + |core| + 1..]
    ensures IsString(b', off) && CStr(b', off) == core
    ensures KeepsRest(b, b', off)
  {
    var m, n := off + |core|, off + |CStr(b, off)|;
    CStrHas(b, off);
    assert b'[off..m] == b'[off..m + 1][..|core|] && b'[m] == b'[off..m + 1][|core|];
    CStrIs(b', off, core);
    forall j | n <= j < |b| ensures b'[j] == b[j] {
      if j > m {
        assert b'[j] == b'[m + 1..][j - m - 1] == b[cut := '\0'][j];
      }
    }
    assert b'[n..] == b[n..];
  }

  /** Only spaces up to the NUL: nothing is left. */
  lemma AllSpaces(b: seq<char>, off: nat, start: nat)
    requires IsString(b, off) && off <= start <= off + |CStr(b, off)| && b[start] == '\0'
    requires C.AllSpace(CStr(b, off)[..start - off])
    ensures C.Trim(CStr(b, off)) == []
  {
    LengthIs(b, off, start);
    var s := CStr(b, off);
    assert s[..start - off] == s && s == s + [] + [];
    C.CoreIsTrim(s, s, [], []);
  }

  lemma LengthIs(b: seq<char>, off: nat, i: nat)
    requires IsString(b, off) && off <= i <= off + |CStr(b, off)| && b[i] == '\0'
    ensures i == off + |CStr(b, off)|
  {
    CStrHas(b, off);
    var s := CStr(b, off);
    assert forall j :: 0 <= j < |s| ==> b[off..off + |s|][j] == b[off + j] && s[j] in s;
  }

  /** memmove(str + to, str + from, n) towards the front. */
  method Move(str: array<char>, to: nat, from: nat, n: nat)
    requires to <= from && from + n <= str.Length
    modifies str
    ensures str[to..to + n] == old(str[from..from + n])
    ensures str[..to] == old(str[..to])
    ensures str[to + n..] == old(str[to + n..])
  {
    if to == from {
      return;
    }
    for i := 0 to n
      invariant str[to..to + i] == old(str[from..from + i])
      invariant str[..to] == old(str[..to])
      invariant str[to + i..] == old(str[to + i..])
    {
      assert str[from + i] == str[to + i..][from - to] == old(str[to + i..])[from - to];
      assert str[to + i + 1..] == str[to + i..][1..];
      str[to + i] := str[from + i];
      assert str[to..to + i + 1] == str[to..to + i] + [str[to + i]];
    }
  }

  /** The characters of a string, as strcmp, strncpy and atoi read them. */
  method Extract(str: array<char>, off: nat) returns (s: seq<char>)
    requires IsString(str[..], off)
    ensures s == CStr(str[..], off)
  {
    var end := Strchr(str, off, '\0');
    C.UntilIs(CStr(str[..], off), CStr(str[..], off), '\0');
    s := str[off..end];
  }

  /** A NUL written over a character ends the string there. */
  lemma CutString(b: seq<char>, i: nat, c: char)
    requires IsString(b, 0) && i == |C.Until(CStr(b, 0), c)| && i < |b|
    ensures IsString(b[i := '\0'], 0) && CStr(b[i := '\0'], 0) == C.Until(CStr(b, 0), c)
  {
    var s := CStr(b, 0);
    CStrHas(b, 0);
    assert C.Until(s, c) == s[..i] == b[..i];
    assert forall j :: 0 <= j < i ==> s[..i][j] == s[j] && s[j] in s;
    CStrIs(b[i := '\0'], 0, s[..i]);
  }

  /** And the string behind that NUL is the rest. */
  lemma RestString(b: seq<char>, i: nat)
    requires IsString(b, 0) && i < |CStr(b, 0)|
    ensures IsString(b[i := '\0'], i + 1) && CStr(b[i := '\0'], i + 1) == CStr(b, 0)[i + 1..]
  {
    var s := CStr(b, 0);
    CStrHas(b, 0);
    var b', t := b[i := '\0'], s[i + 1..];
    assert b'[i + 1..|s|] == b[0..|s|][i + 1..] == t;
    assert forall j :: 0 <= j < |t| ==> t[j] == s[i + 1 + j] && s[i + 1 + j] in s;
    CStrIs(b', i + 1, t);
  }

  /** A string is not changed by changes outside it. */
  lemma SameString(b: seq<char>, b': seq<char>, off: nat)
    requires IsString(b, off) && |b'| == |b|
    requires b'[off..off + |CStr(b, off)| + 1] == b[off..off + |CStr(b, off)| + 1]
    ensures IsString(b', off) && CStr(b', off) == CStr(b, off)
  {
    var s := CStr(b, off);
    CStrHas(b, off);
    var x, y := b'[off..off + |s| + 1], b[off..off + |s| + 1];
    assert x[..|s|] == b'[off..off + |s|] && y[..|s|] == b[off..off + |s|];
    assert x[|s|] == b'[off + |s|] && y[|s|] == b[off + |s|];
    CStrIs(b', off, s);
  }

  class Loader {
    const line: array<char>
    var conf: C.Conf

    ghost predicate Valid()
      reads this
    {
      line.Length == C.LINE_SIZE && C.Sized(conf)
    }

    constructor (conf: C.Conf)
      requires C.Sized(conf)
      ensures Valid() && this.conf == conf && fresh(line)
    {
      line := new char[C.LINE_SIZE](_ => '\0');
      this.conf := conf;
    }

    /** Cuts off the comment and trims what is left. */
    method Reduce()
      requires Valid() && IsString(line[..], 0)
      modifies line
      ensures IsString(line[..], 0) && CStr(line[..], 0) == C.Statement(old(line[..]))
    {
      ghost var b := line[..];
      assert b[0..] == b;
      var i := Strchr(line, 0, '#');
      CutString(b, i, '#');
      if line[i] == '#' {
        line[i] := '\0';
        assert line[..] == b[i := '\0'];
      } else {
        NoMatch(b, i, '#');
      }
      Trim(line, 0);
    }

    /** Splits key=value at the first '=' and trims both where they stand. */
    method Split(eq: nat) returns (key: seq<char>, value: seq<char>)
      requires Valid() && IsString(line[..], 0)
      requires eq == |C.Until(CStr(line[..], 0), '=')| && eq < |CStr(line[..], 0)|
      modifies line
      ensures key == C.Trim(C.Until(old(CStr(line[..], 0)), '='))
      ensures value == C.Trim(old(CStr(line[..], 0))[eq + 1..])
    {
      ghost var b := line[..];
      CutString(b, eq, '=');
      RestString(b, eq);
      line[eq] := '\0';
      ghost var b1 := line[..];
      assert b1 == b[eq := '\0'];
      Trim(line, 0);
      ghost var b2 := line[..];
      assert b2[eq + 1..] == b2[eq..][1..] && b1[eq + 1..] == b1[eq..][1..];
      assert CStr(b2, eq + 1) == CStr(b1, eq + 1);
      Trim(line, eq + 1);
      KeyKept(b2, line[..], eq + 1);
      key := Extract(line, 0);
      value := Extract(line, eq + 1);
    }

    /** One turn of the loop of config_load_from_file, on the line in the buffer. */
    method ParseLine()
      requires Valid() && IsString(line[..], 0)
      modifies this`conf, line
      ensures Valid() && conf == C.ParseLine(old(conf), old(line[..]))
    {
      Reduce();
      ghost var s := CStr(line[..], 0);
      if line[0] == '\0' {
        LengthIs(line[..], 0, 0);
        return;
      }
      var eq := Strchr(line, 0, '=');
      if line[eq] != '=' {
        NoMatch(line[..], eq, '=');
        return;
      }
      Matched(line[..], eq, '=');
      var key, value := Split(eq);
      conf := C.Apply(conf, key, value);
    }

    /** fgets from what is left of the file. */
    method Fgets(file: seq<char>) returns (n: nat)
      requires Valid() && file != []
      modifies line
      ensures Valid() && n == C.Fgets(file, 0) && 0 < n <= |file|
      ensures IsString(line[..], 0) && C.Until(line[..], '\0') == C.Until(file[..n], '\0')
    {
      n := 0;
      while n < C.LINE_SIZE - 1 && n < |file| && !(n > 0 && file[n - 1] == '\n')
        invariant n < C.LINE_SIZE && n <= |file|
        invariant line[..n] == file[..n]
        invariant C.Fgets(file, 0) == C.Fgets(file, n)
      {
        line[n] := file[n];
        assert line[..n + 1] == line[..n] + [file[n]];
        n := n + 1;
      }
      line[n] := '\0';
      assert line[..][..n] == line[..n];
      Filled(line[..], file[..n]);
    }

    /** config_load_from_file on the contents of the file. */
    method Load(text: seq<char>)
      requires Valid()
      modifies this`conf, line
      ensures Valid() && conf == C.Load(old(conf), text)
    {
      var file := text;
      while file != []
        invariant Valid()
        invariant C.Load(conf, file) == C.Load(old(conf), text)
        decreases |file|
      {
        var n := Fgets(file);
        ghost var before := conf;
        ParseLine();
        assert conf == C.ParseLine(before, file[..n]);
        file := file[n..];
      }
    }
  }

  lemma NoMatch(b: seq<char>, i: nat, c: char)
    requires IsString(b, 0) && i == |C.Until(CStr(b, 0), c)| && i < |b| && b[i] != c
    ensures i == |CStr(b, 0)| && C.Until(CStr(b, 0), c) == CStr(b, 0)
  {
    CStrHas(b, 0);
    var s := CStr(b, 0);
    assert forall j :: 0 <= j < |s| ==> b[0..|s|][j] == b[j];
    assert s[..|s|] == s;
  }

  lemma Matched(b: seq<char>, i: nat, c: char)
    requires IsString(b, 0) && i == |C.Until(CStr(b, 0), c)| && i < |b| && b[i] == c && c != '\0'
    ensures i < |CStr(b, 0)|
  {
    CStrHas(b, 0);
  }

  /** Trimming the string at off leaves the one before it alone. */
  lemma KeyKept(b: seq<char>, b': seq<char>, off: nat)
    requires IsString(b, 0) && |CStr(b, 0)| < off && IsString(b, off) && KeepsRest(b, b', off)
    ensures IsString(b', 0) && CStr(b', 0) == CStr(b, 0)
  {
    var n := |CStr(b, 0)| + 1;
    assert b'[0..n] == b'[..off][..n] && b[0..n] == b[..off][..n];
    SameString(b, b', 0);
  }

  /** A buffer filled with text and a NUL reads as the text up to its own first NUL. */
  lemma Filled(b: seq<char>, text: seq<char>)
    requires |text| < |b| && b[..|text|] == text && b[|text|] == '\0'
    ensures IsString(b, 0) && C.Until(b, '\0') == C.Until(text, '\0')
  {
    var u := C.Until(text, '\0');
    assert b[..|u|] == b[..|text|][..|u|] == u;
    assert |u| < |text| ==> b[|u|] == b[..|text|][|u|];
    C.UntilIs(b, u, '\0');
    assert b[0..] == b;
  }
}
