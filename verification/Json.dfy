/** Printing values the way the server measures them: no ASCII escapes, ", " and ": " separators. */
module Json {
  datatype Value =
    | Text(text: string)
    | Number(n: nat)
    | Literal(word: string)
    | List(items: seq<Value>)
    | Object(members: seq<(string, Value)>)

  const HEX := "0123456789abcdef"

  function Escaped(c: char): (r: string)
    ensures r != ""
  {
    if c == '\"' then "\\\""
    else if c == '\\' then "\\\\"
    else if c == '\n' then "\\n"
    else if c == '\r' then "\\r"
    else if c == '\t' then "\\t"
    else if c == '\U{8}' then "\\b"
    else if c == '\U{C}' then "\\f"
    else if c < ' ' then "\\u00" + [HEX[c as int / 16], HEX[c as int % 16]]
    else [c]
  }

  function EscapedAll(s: string): string {
    if s == "" then "" else Escaped(s[0]) + EscapedAll(s[1..])
  }

  function Quoted(s: string): string {
    "\"" + EscapedAll(s) + "\""
  }

  function Decimal(n: nat): (r: string)
    ensures r != ""
  {
    if n < 10 then [HEX[n]] else Decimal(n / 10) + [HEX[n % 10]]
  }

  function Digits(n: nat): nat {
    |Decimal(n)|
  }

  function Dump(v: Value): string
    decreases v
  {
    match v
    case Text(text) => Quoted(text)
    case Number(n) => Decimal(n)
    case Literal(word) => word
    case List(items) => "[" + DumpItems(items) + "]"
    case Object(members) => "{" + DumpMembers(members) + "}"
  }

  function DumpItems(items: seq<Value>): string
    decreases items
  {
    if items == [] then ""
    else if |items| == 1 then Dump(items[0])
    else Dump(items[0]) + ", " + DumpItems(items[1..])
  }

  function DumpMember(m: (string, Value)): string
    decreases m
  {
    Quoted(m.0) + ": " + Dump(m.1)
  }

  function DumpMembers(members: seq<(string, Value)>): string
    decreases members
  {
    if members == [] then ""
    else if |members| == 1 then DumpMember(members[0])
    else DumpMember(members[0]) + ", " + DumpMembers(members[1..])
  }

  lemma {:induction false} DigitsGrow(m: nat, n: nat)
    requires m <= n
    ensures Digits(m) <= Digits(n)
  {
    if n >= 10 && m >= 10 { DigitsGrow(m / 10, n / 10); }
  }

  /** The length of a member list: each member and a separator, except after the last one. */
  function MemberChars(members: seq<(string, Value)>): nat {
    if members == [] then 0 else |DumpMember(members[0])| + 2 + MemberChars(members[1..])
  }

  lemma {:induction false} MembersLength(members: seq<(string, Value)>)
    requires members != []
    ensures |DumpMembers(members)| + 2 == MemberChars(members)
  {
    if |members| > 1 { MembersLength(members[1..]); }
  }

  lemma {:induction false} MemberCharsAppend(xs: seq<(string, Value)>, ys: seq<(string, Value)>)
    ensures MemberChars(xs + ys) == MemberChars(xs) + MemberChars(ys)
  {
    if xs == [] {
      assert xs + ys == ys;
    } else {
      MemberCharsAppend(xs[1..], ys);
      assert (xs + ys)[0] == xs[0] && (xs + ys)[1..] == xs[1..] + ys;
    }
  }
}
