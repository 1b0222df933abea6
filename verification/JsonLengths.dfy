/** The printed length of a value as a sum over its parts.

    Text without quotes, backslashes and control characters is printed letter by letter, and no other
    text is printed shorter than it is. A list costs each of its items and a separator, an object each of
    its keys and values: so replacing, removing or adding a part changes the length by what that part
    costs, and a beginning of a list costs no more than the list. These facts are all that the later
    modules need to know about printing. */
module JsonLengths {
  import opened Json

  type Members = seq<(string, Value)>

  // ---------- Text ----------

  /** Every character is printed as itself. */
  ghost predicate Plain(s: string) {
    forall i :: 0 <= i < |s| ==> ' ' <= s[i] && s[i] != '\"' && s[i] != '\\'
  }

  lemma {:induction false} PlainLength(s: string)
    requires Plain(s)
    ensures |EscapedAll(s)| == |s|
  {
    if s != "" { PlainLength(s[1..]); }
  }

  lemma PlainQuoted(s: string)
    requires Plain(s)
    ensures |Quoted(s)| == |s| + 2
  {
    PlainLength(s);
  }

  lemma {:induction false} EscapedIsNoShorter(s: string)
    ensures |EscapedAll(s)| >= |s|
  {
    if s != "" { EscapedIsNoShorter(s[1..]); }
  }

  lemma {:induction false} EscapedAppend(s: string, t: string)
    ensures EscapedAll(s + t) == EscapedAll(s) + EscapedAll(t)
  {
    if s == "" {
      assert s + t == t;
    } else {
      var all := s + t;
      assert all[0] == s[0] && all[1..] == s[1..] + t;
      EscapedAppend(s[1..], t);
    }
  }

  // ---------- Lists ----------

  /** Each item and a separator. */
  function ItemChars(items: seq<Value>): nat {
    if items == [] then 0 else |Dump(items[0])| + 2 + ItemChars(items[1..])
  }

  lemma {:induction false} ItemsLength(items: seq<Value>)
    requires items != []
    ensures |DumpItems(items)| + 2 == ItemChars(items)
  {
    if |items| > 1 { ItemsLength(items[1..]); }
  }

  /** The length of a printed list. */
  function ListChars(items: seq<Value>): nat {
    if items == [] then 2 else ItemChars(items)
  }

  lemma PrintedList(items: seq<Value>)
    ensures |Dump(List(items))| == ListChars(items)
  {
    if items != [] { ItemsLength(items); }
  }

  lemma {:induction false} ItemCharsAppend(xs: seq<Value>, ys: seq<Value>)
    ensures ItemChars(xs + ys) == ItemChars(xs) + ItemChars(ys)
  {
    if xs == [] {
      assert xs + ys == ys;
    } else {
      var all := xs + ys;
      assert all[0] == xs[0] && all[1..] == xs[1..] + ys;
      ItemCharsAppend(xs[1..], ys);
    }
  }

  lemma OneItem(v: Value)
    ensures ItemChars([v]) == |Dump(v)| + 2
  {
    assert [v][1..] == [];
  }

  lemma ItemInside(xs: seq<Value>, v: Value, ys: seq<Value>)
    ensures ItemChars(xs + [v] + ys) == ItemChars(xs) + |Dump(v)| + 2 + ItemChars(ys)
  {
    ItemCharsAppend(xs + [v], ys);
    ItemCharsAppend(xs, [v]);
    OneItem(v);
  }

  /** A beginning of a list is printed no longer than the list. */
  lemma PrefixIsNoLonger(xs: seq<Value>, ys: seq<Value>)
    requires xs <= ys
    ensures ListChars(xs) <= ListChars(ys)
  {
    assert ys == xs + ys[|xs|..];
    ItemCharsAppend(xs, ys[|xs|..]);
  }

  /** Removing an item saves at least its own characters. */
  lemma RemovingSaves(items: seq<Value>, i: nat)
    requires i < |items|
    ensures ListChars(items[..i] + items[i+1..]) + |Dump(items[i])| <= ListChars(items)
  {
    assert items == items[..i] + [items[i]] + items[i+1..];
    ItemInside(items[..i], items[i], items[i+1..]);
    ItemCharsAppend(items[..i], items[i+1..]);
  }

  lemma UpdatingItems(items: seq<Value>, i: nat, v: Value)
    requires i < |items|
    ensures ListChars(items[i := v]) - ListChars(items) == |Dump(v)| - |Dump(items[i])|
  {
    assert items == items[..i] + [items[i]] + items[i+1..] && items[i := v] == items[..i] + [v] + items[i+1..];
    ItemInside(items[..i], items[i], items[i+1..]);
    ItemInside(items[..i], v, items[i+1..]);
  }

  function Times(k: nat, width: nat): nat {
    if k == 0 then 0 else width + Times(k - 1, width)
  }

  lemma {:induction false} MoreIsLonger(more: nat, less: nat, width: nat)
    requires more >= less
    ensures Times(more, width) >= Times(less, width) + if more > less then width else 0
  {
    if more > less { MoreIsLonger(more - 1, less, width); }
  }

  /** Items of one width, the first few with an addition of one more width. */
  lemma {:induction false} EvenItems(items: seq<Value>, width: nat, rich: nat, extra: nat)
    requires rich <= |items|
    requires forall i :: 0 <= i < |items| ==> |Dump(items[i])| + 2 == width + if i < rich then extra else 0
    ensures ItemChars(items) == Times(|items|, width) + Times(rich, extra)
  {
    if items != [] {
      EvenItems(items[1..], width, if rich == 0 then 0 else rich - 1, extra);
    }
  }

  // ---------- Objects: keys and values apart ----------

  function KeyChars(ms: Members): nat {
    if ms == [] then 0 else |Quoted(ms[0].0)| + 4 + KeyChars(ms[1..])
  }

  function ValueChars(ms: Members): nat {
    if ms == [] then 0 else |Dump(ms[0].1)| + ValueChars(ms[1..])
  }

  lemma {:induction false} KeysAndValues(ms: Members)
    ensures MemberChars(ms) == KeyChars(ms) + ValueChars(ms)
  {
    if ms != [] { KeysAndValues(ms[1..]); }
  }

  lemma PrintedObject(ms: Members)
    requires ms != []
    ensures |Dump(Object(ms))| == KeyChars(ms) + ValueChars(ms)
  {
    MembersLength(ms);
    KeysAndValues(ms);
  }

  lemma {:induction false} SameKeys(xs: Members, ys: Members)
    requires |xs| == |ys| && forall i :: 0 <= i < |xs| ==> xs[i].0 == ys[i].0
    ensures KeyChars(xs) == KeyChars(ys)
  {
    if xs != [] { SameKeys(xs[1..], ys[1..]); }
  }

  lemma {:induction false} ValueCharsAppend(xs: Members, ys: Members)
    ensures ValueChars(xs + ys) == ValueChars(xs) + ValueChars(ys)
  {
    if xs == [] {
      assert xs + ys == ys;
    } else {
      var all := xs + ys;
      assert all[0] == xs[0] && all[1..] == xs[1..] + ys;
      ValueCharsAppend(xs[1..], ys);
    }
  }

  lemma ThreeValues(ms: Members)
    requires |ms| == 3
    ensures ValueChars(ms) == |Dump(ms[0].1)| + |Dump(ms[1].1)| + |Dump(ms[2].1)|
  {
    assert ms[1..][0] == ms[1] && ms[2..][0] == ms[2] && ms[1..][1..] == ms[2..] && ms[2..][1..] == [];
    assert ValueChars(ms[2..]) == |Dump(ms[2].1)|;
    assert ValueChars(ms[1..]) == |Dump(ms[1].1)| + ValueChars(ms[2..]);
  }

  lemma FiveValues(ms: Members)
    requires |ms| == 5
    ensures ValueChars(ms) == |Dump(ms[0].1)| + |Dump(ms[1].1)| + |Dump(ms[2].1)| + |Dump(ms[3].1)| + |Dump(ms[4].1)|
  {
    assert ms == ms[..2] + ms[2..];
    ValueCharsAppend(ms[..2], ms[2..]);
    ThreeValues(ms[2..]);
    assert ms[..2][1..][0] == ms[1] && ms[..2][1..][1..] == [];
    assert ValueChars(ms[..2][1..]) == |Dump(ms[1].1)|;
  }

  lemma SixValues(ms: Members)
    requires |ms| == 6
    ensures ValueChars(ms) == |Dump(ms[0].1)| + |Dump(ms[1].1)| + |Dump(ms[2].1)|
                              + |Dump(ms[3].1)| + |Dump(ms[4].1)| + |Dump(ms[5].1)|
  {
    assert ms == ms[..3] + ms[3..];
    ValueCharsAppend(ms[..3], ms[3..]);
    ThreeValues(ms[..3]);
    ThreeValues(ms[3..]);
  }

  lemma OneMember(key: string, v: Value)
    ensures MemberChars([(key, v)]) == |Quoted(key)| + 4 + |Dump(v)|
  {
    var ms := [(key, v)];
    assert ms[1..] == [] && DumpMember(ms[0]) == Quoted(key) + ": " + Dump(v);
  }

  lemma MiddleMemberChars(before: seq<(string, Value)>, m: (string, Value), after: seq<(string, Value)>)
    ensures MemberChars(before + [m] + after) == MemberChars(before) + |DumpMember(m)| + 2 + MemberChars(after)
  {
    MemberCharsAppend(before + [m], after);
    MemberCharsAppend(before, [m]);
    assert [m][1..] == [];
  }

  // ---------- Objects of plain texts ----------

  ghost predicate Flat(ms: Members) {
    forall i :: 0 <= i < |ms| ==> Plain(ms[i].0) && ms[i].1.Text? && Plain(ms[i].1.text)
  }

  function FlatChars(ms: Members): nat {
    if ms == [] then 0
    else |ms[0].0| + (if ms[0].1.Text? then |ms[0].1.text| else 0) + 8 + FlatChars(ms[1..])
  }

  lemma {:induction false} FlatMembers(ms: Members)
    requires Flat(ms)
    ensures MemberChars(ms) == FlatChars(ms)
  {
    if ms != [] {
      PlainQuoted(ms[0].0);
      PlainQuoted(ms[0].1.text);
      assert Dump(ms[0].1) == Quoted(ms[0].1.text);
      FlatMembers(ms[1..]);
    }
  }

  /** Keys and texts are printed letter by letter, with eight more characters for each member. */
  lemma FlatObject(ms: Members)
    requires ms != [] && Flat(ms)
    ensures |Dump(Object(ms))| == FlatChars(ms)
  {
    FlatMembers(ms);
    MembersLength(ms);
  }

  lemma {:induction false} FlatAppend(xs: Members, ys: Members)
    ensures FlatChars(xs + ys) == FlatChars(xs) + FlatChars(ys)
  {
    if xs == [] {
      assert xs + ys == ys;
    } else {
      var all := xs + ys;
      assert all[0] == xs[0] && all[1..] == xs[1..] + ys;
      FlatAppend(xs[1..], ys);
    }
  }

  lemma ThreeFlat(ms: Members)
    requires |ms| == 3 && Flat(ms)
    ensures FlatChars(ms) == 24 + |ms[0].0| + |ms[0].1.text| + |ms[1].0| + |ms[1].1.text| + |ms[2].0| + |ms[2].1.text|
  {
    assert ms[1..][0] == ms[1] && ms[2..][0] == ms[2] && ms[1..][1..] == ms[2..] && ms[2..][1..] == [];
    assert FlatChars(ms[2..]) == |ms[2].0| + |ms[2].1.text| + 8;
    assert FlatChars(ms[1..]) == |ms[1].0| + |ms[1].1.text| + 8 + FlatChars(ms[2..]);
  }

  // ---------- Bounds ----------

  /** A flat member of plain text is printed letter by letter. */
  ghost predicate Fits(m: (string, Value), n: nat) {
    && Plain(m.0)
    && match m.1
       case Text(t) => Plain(t) && |m.0| + |t| + 6 <= n
       case Number(k) => |m.0| + 4 + Digits(k) <= n
       case Literal(w) => |m.0| + 4 + |w| <= n
       case _ => false
  }

  lemma FittingMember(m: (string, Value), n: nat)
    requires Fits(m, n)
    ensures |DumpMember(m)| <= n
  {
    PlainLength(m.0);
    if m.1.Text? { PlainLength(m.1.text); }
  }

  lemma {:induction false} FittingMembers(ms: Members, n: nat)
    requires forall i :: 0 <= i < |ms| ==> Fits(ms[i], n)
    ensures MemberChars(ms) <= |ms| * (n + 2)
  {
    if ms != [] {
      assert |ms| * (n + 2) == |ms[1..]| * (n + 2) + (n + 2);
      FittingMember(ms[0], n);
      forall i | 0 <= i < |ms[1..]| ensures Fits(ms[1..][i], n) { assert Fits(ms[i + 1], n); }
      FittingMembers(ms[1..], n);
    }
  }

  lemma FittingObject(ms: Members, n: nat)
    requires ms != [] && forall i :: 0 <= i < |ms| ==> Fits(ms[i], n)
    ensures |Dump(Object(ms))| <= |ms| * (n + 2)
  {
    FittingMembers(ms, n);
    MembersLength(ms);
  }

  lemma {:induction false} ShortKeys(ms: Members, n: nat)
    requires forall i :: 0 <= i < |ms| ==> Plain(ms[i].0) && |ms[i].0| <= n
    ensures KeyChars(ms) <= |ms| * (n + 6)
  {
    if ms != [] {
      assert |ms| * (n + 6) == |ms[1..]| * (n + 6) + (n + 6);
      PlainQuoted(ms[0].0);
      ShortKeys(ms[1..], n);
    }
  }

  lemma {:induction false} KeyCharsAppend(xs: Members, ys: Members)
    ensures KeyChars(xs + ys) == KeyChars(xs) + KeyChars(ys)
  {
    if xs == [] {
      assert xs + ys == ys;
    } else {
      var all := xs + ys;
      assert all[0] == xs[0] && all[1..] == xs[1..] + ys;
      KeyCharsAppend(xs[1..], ys);
    }
  }
}
