/** What is printed can be read back: strings up to their closing quote, and numbers. */
module JsonReading {
  import opened Wrappers
  import opened Json

  // ---------- Strings ----------

  function HexValue(c: char): Option<nat> {
    if '0' <= c <= '9' then Some((c - '0') as nat)
    else if 'a' <= c <= 'f' then Some((c - 'a') as nat + 10)
    else None
  }

  /** The character that a backslash and this one stand for. */
  function Meant(c: char): Option<char> {
    if c == '\"' || c == '\\' then Some(c)
    else if c == 'n' then Some('\n')
    else if c == 'r' then Some('\r')
    else if c == 't' then Some('\t')
    else if c == 'b' then Some('\U{8}')
    else if c == 'f' then Some('\U{C}')
    else None
  }

  /** The first character of a printed string, and what follows; a bare quote ends the string. */
  function ReadChar(s: string): Option<(char, string)> {
    if s == "" || s[0] == '\"' then None
    else if s[0] != '\\' then Some((s[0], s[1..]))
    else if |s| < 2 then None
    else if s[1] == 'u' then
      if |s| < 6 || s[2] != '0' || s[3] != '0' || HexValue(s[4]).None? || HexValue(s[5]).None? then None
      else Some(((HexValue(s[4]).value * 16 + HexValue(s[5]).value) as char, s[6..]))
    else match Meant(s[1])
      case None => None
      case Some(c) => Some((c, s[2..]))
  }

  /** A printed string up to its closing quote, and what follows. */
  function ReadString(s: string): Option<(string, string)>
    decreases |s|
  {
    if s == "" then None
    else if s[0] == '\"' then Some(("", s[1..]))
    else
      match ReadChar(s)
      case None => None
      case Some((c, rest)) =>
        if |rest| >= |s| then None
        else
          match ReadString(rest)
          case None => None
          case Some((more, after)) => Some(([c] + more, after))
  }

  lemma HexIsRead(n: nat)
    requires n < 16
    ensures HexValue(HEX[n]) == Some(n)
  {
  }

  lemma EscapedIsRead(c: char, rest: string)
    ensures ReadChar(Escaped(c) + rest) == Some((c, rest))
    ensures (Escaped(c) + rest)[0] != '\"'
  {
    var s := Escaped(c) + rest;
    if |Escaped(c)| == 1 {
      assert s[1..] == rest;
    } else if |Escaped(c)| == 2 {
      assert s[2..] == rest;
    } else {
      HexIsRead(c as int / 16);
      HexIsRead(c as int % 16);
      assert s[6..] == rest;
    }
  }

  lemma OneMoreIsRead(c: char, tail: string, more: string, rest: string)
    requires ReadString(tail) == Some((more, rest))
    ensures ReadString(Escaped(c) + tail) == Some(([c] + more, rest))
  {
    EscapedIsRead(c, tail);
  }

  lemma {:induction false} EscapedAllIsRead(s: string, rest: string)
    ensures ReadString(EscapedAll(s) + "\"" + rest) == Some((s, rest))
  {
    if s == "" {
      assert EscapedAll(s) + "\"" + rest == "\"" + rest && ("\"" + rest)[1..] == rest;
    } else {
      var tail := EscapedAll(s[1..]) + "\"" + rest;
      EscapedAllIsRead(s[1..], rest);
      OneMoreIsRead(s[0], tail, s[1..], rest);
      assert EscapedAll(s) + "\"" + rest == Escaped(s[0]) + tail;
      assert [s[0]] + s[1..] == s;
    }
  }

  lemma BehindTheQuote(s: string, tail: string)
    requires s == "\"" + tail
    ensures s[0] == '\"' && s[1..] == tail
  {
  }

  /** Reading a printed string gives the string and leaves what was printed after it. */
  lemma QuotedIsRead(s: string, rest: string)
    ensures (Quoted(s) + rest)[0] == '\"' && ReadString((Quoted(s) + rest)[1..]) == Some((s, rest))
  {
    EscapedAllIsRead(s, rest);
    assert Quoted(s) + rest == "\"" + (EscapedAll(s) + "\"" + rest);
    BehindTheQuote(Quoted(s) + rest, EscapedAll(s) + "\"" + rest);
  }

  // ---------- Numbers ----------

  function ReadNumber(s: string): nat {
    if s == "" then 0
    else
      var digit := HexValue(s[|s|-1]);
      ReadNumber(s[..|s|-1]) * 10 + if digit.Some? then digit.value else 0
  }

  /** Reading a printed number gives the number; it has no leading zero and takes as many digits as its size says. */
  lemma {:induction false} DecimalIsRead(n: nat)
    ensures ReadNumber(Decimal(n)) == n
    ensures forall i :: 0 <= i < |Decimal(n)| ==> '0' <= Decimal(n)[i] <= '9'
    ensures n > 0 ==> Decimal(n)[0] != '0'
  {
    HexIsRead(n % 10);
    if n < 10 {
      assert Decimal(n)[..0] == "";
    } else {
      DecimalIsRead(n / 10);
      assert Decimal(n)[..|Decimal(n)|-1] == Decimal(n / 10);
    }
  }
}
