/**
 * The hash chain over workflow events (events/event-hash.ts): the canonical text of an
 * event, its hash, and the check of a chain. Text is a sequence of JSON tokens, so the
 * escaping of strings and the spelling of numbers stay outside.
 */
module EventHash {
  import opened Options
  import opened Sorting

  // ---------------------------------------------------------------- values and their text

  /** A JavaScript value as it reaches the log: JSON, and `undefined` in any place. */
  datatype Js =
    | Undefined
    | Null
    | Bool(b: bool)
    | Num(n: int)
    | Str(s: string)
    | Arr(items: seq<Js>)
    | Obj(members: seq<Member>)

  /** A property, in insertion order. */
  datatype Member = Member(key: string, value: Js)

  datatype Token =
    | TNull | TBool(b: bool) | TNum(n: int) | TStr(s: string)
    | OpenBracket | CloseBracket | OpenBrace | CloseBrace | Comma | Colon

  type Text = seq<Token>

  /** The text of one property. */
  datatype Entry = Entry(key: string, text: Text)

  predicate StringLe(a: string, b: string) {
    a == "" || (b != "" && (a[0] < b[0] || (a[0] == b[0] && StringLe(a[1..], b[1..]))))
  }

  function ByKey(): (Entry, Entry) -> bool {
    (a: Entry, b: Entry) => StringLe(a.key, b.key)
  }

  /** `stableStringify`: object keys are sorted at every depth, `undefined` reads as null. */
  function Canon(v: Js): Text {
    match v
    case Undefined => [TNull]
    case Null => [TNull]
    case Bool(b) => [TBool(b)]
    case Num(n) => [TNum(n)]
    case Str(s) => [TStr(s)]
    case Arr(items) => [OpenBracket] + Listed(Texts(items))
    case Obj(members) => [OpenBrace] + Braced(SortBy(ByKey(), Entries(members)))
  }

  function Texts(items: seq<Js>): seq<Text> {
    if items == [] then [] else [Canon(items[0])] + Texts(items[1..])
  }

  function Entries(members: seq<Member>): seq<Entry> {
    if members == [] then [] else [Entry(members[0].key, Canon(members[0].value))] + Entries(members[1..])
  }

  /** Elements separated by commas, up to the closing bracket. */
  function Listed(texts: seq<Text>): Text {
    if texts == [] then [CloseBracket] else texts[0] + ListedRest(texts[1..])
  }

  function ListedRest(texts: seq<Text>): Text {
    if texts == [] then [CloseBracket] else [Comma] + texts[0] + ListedRest(texts[1..])
  }

  function Braced(entries: seq<Entry>): Text {
    if entries == [] then [CloseBrace] else [TStr(entries[0].key), Colon] + entries[0].text + BracedRest(entries[1..])
  }

  function BracedRest(entries: seq<Entry>): Text {
    if entries == [] then [CloseBrace]
    else [Comma, TStr(entries[0].key), Colon] + entries[0].text + BracedRest(entries[1..])
  }

  // ---------------------------------------------------------------- when two values are the same

  /** A value as JavaScript can build it: no object has a key twice. */
  predicate IsValue(v: Js) {
    match v
    case Arr(items) => forall i :: 0 <= i < |items| ==> IsValue(items[i])
    case Obj(members) =>
      && KeysApart(members)
      && (forall i :: 0 <= i < |members| ==> IsValue(members[i].value))
    case _ => true
  }

  /** The same content: objects compare by key, whatever the order; `undefined` counts as null. */
  ghost predicate Same(v: Js, w: Js) {
    match v
    case Undefined => w.Undefined? || w.Null?
    case Null => w.Undefined? || w.Null?
    case Arr(items) => w.Arr? && |items| == |w.items| && forall i :: 0 <= i < |items| ==> Same(items[i], w.items[i])
    case Obj(members) =>
      && w.Obj?
      && (forall m :: m in members ==> HasKey(w.members, m.key))
      && (forall n :: n in w.members ==> HasKey(members, n.key))
      && (forall i, j | 0 <= i < |members| && 0 <= j < |w.members| && members[i].key == w.members[j].key
            :: Same(members[i].value, w.members[j].value))
    case _ => v == w
  }

  ghost predicate HasKey(members: seq<Member>, key: string) {
    exists m :: m in members && m.key == key
  }

  // ---------------------------------------------------------------- order of keys

  lemma {:induction false} StringLeTotal(a: string, b: string)
    ensures StringLe(a, b) || StringLe(b, a)
    ensures StringLe(a, b) && StringLe(b, a) ==> a == b
  {
    if a != "" && b != "" && a[0] == b[0] {
      StringLeTotal(a[1..], b[1..]);
      assert a == [a[0]] + a[1..] && b == [b[0]] + b[1..];
    }
  }

  lemma {:induction false} StringLeTransitive(a: string, b: string, c: string)
    requires StringLe(a, b) && StringLe(b, c)
    ensures StringLe(a, c)
  {
    if a != "" && a[0] == b[0] && b[0] == c[0] {
      StringLeTransitive(a[1..], b[1..], c[1..]);
    }
  }

  lemma {:induction false} ByKeyIsOrder()
    ensures TotalPreorder(ByKey())
  {
    forall a: Entry, b: Entry ensures ByKey()(a, b) || ByKey()(b, a) {
      StringLeTotal(a.key, b.key);
    }
    forall a: Entry, b: Entry, c: Entry | ByKey()(a, b) && ByKey()(b, c) ensures ByKey()(a, c) {
      StringLeTransitive(a.key, b.key, c.key);
    }
  }

  /** The first difference is at `k`, and there `a` has the smaller code unit. */
  ghost predicate SmallerAt(a: string, b: string, k: int) {
    0 <= k < |a| && k < |b| && a[..k] == b[..k] && a[k] < b[k]
  }

  /** The order of keys is that of their code units: a beginning comes first, else the first difference decides. */
  lemma {:induction false} StringLeMeans(a: string, b: string)
    ensures StringLe(a, b) <==> a <= b || exists k :: SmallerAt(a, b, k)
  {
    if a != "" && b != "" {
      if a[0] == b[0] {
        StringLeMeans(a[1..], b[1..]);
        assert a == [a[0]] + a[1..] && b == [b[0]] + b[1..];
        if k :| SmallerAt(a[1..], b[1..], k) {
          assert a[..k + 1] == [a[0]] + a[1..][..k] && b[..k + 1] == [b[0]] + b[1..][..k];
          assert SmallerAt(a, b, k + 1);
        }
        if k :| SmallerAt(a, b, k) {
          assert a[1..][..k - 1] == a[..k][1..] && b[1..][..k - 1] == b[..k][1..];
          assert SmallerAt(a[1..], b[1..], k - 1);
        }
      } else if a[0] < b[0] {
        assert SmallerAt(a, b, 0);
      }
    }
  }

  /** The text of an object lists its properties by ascending key. */
  lemma {:induction false} KeysAscend(members: seq<Member>, i: nat, j: nat)
    requires i < j < |members|
    ensures var entries := SortBy(ByKey(), Entries(members));
      && Canon(Obj(members)) == [OpenBrace] + Braced(entries) && |entries| == |members|
      && (entries[i].key <= entries[j].key || exists k :: SmallerAt(entries[i].key, entries[j].key, k))
  {
    ByKeyIsOrder();
    var entries := SortBy(ByKey(), Entries(members));
    SortByProperties(ByKey(), Entries(members));
    EntriesAre(members);
    assert ByKey()(entries[i], entries[j]);
    StringLeMeans(entries[i].key, entries[j].key);
  }

  ghost predicate DistinctKeys(entries: seq<Entry>) {
    forall i, j :: 0 <= i < j < |entries| ==> entries[i].key != entries[j].key
  }

  /** Sorted lists of the same entries, no key twice, are equal. */
  lemma {:induction false} SortedEntriesAreUnique(a: seq<Entry>, b: seq<Entry>)
    requires SortedBy(ByKey(), a) && SortedBy(ByKey(), b) && DistinctKeys(a) && DistinctKeys(b)
    requires forall e :: e in a <==> e in b
    ensures a == b
  {
    assert b != [] ==> b[0] in a;
    if a != [] {
      assert a[0] in b;
      var i :| 0 <= i < |b| && b[i] == a[0];
      assert b[0] in a;
      var j :| 0 <= j < |a| && a[j] == b[0];
      assert i > 0 ==> ByKey()(b[0], b[i]);
      assert j > 0 ==> ByKey()(a[0], a[j]);
      StringLeTotal(a[0].key, b[0].key);
      assert a == [a[0]] + a[1..] && b == [a[0]] + b[1..];
      forall e ensures e in a[1..] <==> e in b[1..] {
        TailWithoutHead(a, e);
        TailWithoutHead(b, e);
      }
      SortedEntriesAreUnique(a[1..], b[1..]);
    }
  }

  lemma {:induction false} TailWithoutHead(a: seq<Entry>, e: Entry)
    requires a != [] && DistinctKeys(a)
    ensures e in a[1..] <==> e in a && e != a[0]
  {
  }

  lemma {:induction false} EntriesAre(members: seq<Member>)
    ensures |Entries(members)| == |members|
    ensures forall i :: 0 <= i < |members| ==> Entries(members)[i] == Entry(members[i].key, Canon(members[i].value))
  {
    if members != [] {
      EntriesAre(members[1..]);
    }
  }

  lemma {:induction false} TextsAre(items: seq<Js>)
    ensures |Texts(items)| == |items|
    ensures forall i :: 0 <= i < |items| ==> Texts(items)[i] == Canon(items[i])
  {
    if items != [] {
      TextsAre(items[1..]);
    }
  }

  predicate KeysApart(members: seq<Member>) {
    forall i, j :: 0 <= i < j < |members| ==> members[i].key != members[j].key
  }

  lemma {:induction false} EntriesApart(members: seq<Member>)
    requires KeysApart(members)
    ensures DistinctKeys(Entries(members))
  {
    EntriesAre(members);
  }

  /** A rearrangement of entries without a repeated key has none either. */
  lemma {:induction false} KeysStayApart(a: seq<Entry>, b: seq<Entry>)
    requires DistinctKeys(a) && multiset(a) == multiset(b)
    ensures DistinctKeys(b)
  {
    PermutationDistinct(a, b);
    forall i, j | 0 <= i < j < |b| ensures b[i].key != b[j].key {
      assert b[i] in multiset(a) && b[j] in multiset(a);
      var k :| 0 <= k < |a| && a[k] == b[i];
      var m :| 0 <= m < |a| && a[m] == b[j];
      assert k != m;
    }
  }

  /** The sorted entries are the members' entries, each once. */
  lemma {:induction false} SortedEntries(members: seq<Member>) returns (s: seq<Entry>)
    ensures s == SortBy(ByKey(), Entries(members)) && SortedBy(ByKey(), s)
    ensures forall e :: e in s <==> e in Entries(members)
    ensures KeysApart(members) ==> DistinctKeys(s)
  {
    var raw := Entries(members);
    s := SortBy(ByKey(), raw);
    ByKeyIsOrder();
    SortByProperties(ByKey(), raw);
    forall e ensures e in s <==> e in raw {
      assert e in s <==> e in multiset(s);
      assert e in raw <==> e in multiset(raw);
    }
    if KeysApart(members) {
      EntriesApart(members);
      KeysStayApart(raw, s);
    }
  }

  // ---------------------------------------------------------------- same content, same text

  lemma {:induction false} SameContentSameText(v: Js, w: Js)
    requires IsValue(v) && IsValue(w) && Same(v, w)
    ensures Canon(v) == Canon(w)
    decreases v
  {
    if v.Arr? {
      TextsAre(v.items);
      TextsAre(w.items);
      forall i | 0 <= i < |v.items| ensures Canon(v.items[i]) == Canon(w.items[i]) {
        SameContentSameText(v.items[i], w.items[i]);
      }
      assert Texts(v.items) == Texts(w.items);
    } else if v.Obj? {
      forall i, j | 0 <= i < |v.members| && 0 <= j < |w.members| && v.members[i].key == w.members[j].key
        ensures Canon(v.members[i].value) == Canon(w.members[j].value)
      {
        SameContentSameText(v.members[i].value, w.members[j].value);
      }
      SameEntriesSameText(v.members, w.members);
    }
  }

  lemma {:induction false} EntriesCarryOver(a: seq<Member>, b: seq<Member>, e: Entry)
    requires forall m :: m in a ==> HasKey(b, m.key)
    requires forall i, j | 0 <= i < |a| && 0 <= j < |b| && a[i].key == b[j].key :: Canon(a[i].value) == Canon(b[j].value)
    requires e in Entries(a)
    ensures e in Entries(b)
  {
    EntriesAre(a);
    EntriesAre(b);
    var i :| 0 <= i < |a| && Entries(a)[i] == e;
    assert a[i] in a;
    var m :| m in b && m.key == a[i].key;
    var j :| 0 <= j < |b| && b[j] == m;
    assert Entries(b)[j] == e;
  }

  lemma {:induction false} SameEntriesSameText(a: seq<Member>, b: seq<Member>)
    requires KeysApart(a) && KeysApart(b)
    requires (forall m :: m in a ==> HasKey(b, m.key)) && (forall n :: n in b ==> HasKey(a, n.key))
    requires forall i, j | 0 <= i < |a| && 0 <= j < |b| && a[i].key == b[j].key :: Canon(a[i].value) == Canon(b[j].value)
    ensures SortBy(ByKey(), Entries(a)) == SortBy(ByKey(), Entries(b))
  {
    var s := SortedEntries(a);
    var t := SortedEntries(b);
    forall e ensures e in s <==> e in t {
      if e in s { EntriesCarryOver(a, b, e); }
      if e in t { EntriesCarryOver(b, a, e); }
    }
    SortedEntriesAreUnique(s, t);
  }

  // ---------------------------------------------------------------- same text, same content

  /** A value that is neither array nor object is one token, and only such a value starts with it. */
  lemma {:induction false} LeafIsReadOneWay(v: Js, w: Js, s: Text, t: Text)
    requires !v.Arr? && !v.Obj? && Canon(v) + s == Canon(w) + t
    ensures Same(v, w) && s == t
  {
    var x, y := Canon(v) + s, Canon(w) + t;
    assert x[0] == Canon(v)[0] && y[0] == Canon(w)[0];
    assert !w.Arr? && !w.Obj?;
    assert x[1..] == s && y[1..] == t;
  }

  lemma {:induction false} TextOpens(v: Js, s: Text)
    ensures var x := Canon(v) + s;
      && x != []
      && (x[0] == OpenBracket <==> v.Arr?) && (x[0] == OpenBrace <==> v.Obj?)
      && (v.Arr? ==> x[1..] == Listed(Texts(v.items)) + s)
      && (v.Obj? ==> x[1..] == Braced(SortBy(ByKey(), Entries(v.members))) + s)
  {
  }

  /** A text followed by anything can be read back in one way only. */
  lemma {:induction false} TextIsReadOneWay(v: Js, w: Js, s: Text, t: Text)
    requires IsValue(v) && IsValue(w) && Canon(v) + s == Canon(w) + t
    ensures Same(v, w) && s == t
    decreases v, 2, 0
  {
    TextOpens(v, s);
    TextOpens(w, t);
    if v.Arr? {
      ArrayIsReadOneWay(v, w, s, t);
    } else if v.Obj? {
      ObjectIsReadOneWay(v, w, s, t);
    } else {
      LeafIsReadOneWay(v, w, s, t);
    }
  }

  /** An array's text is a comma away from the text of further elements. */
  lemma {:induction false} ListOpens(items: seq<Js>, s: Text)
    ensures var x := Listed(Texts(items)) + s;
      if items == [] then x == [CloseBracket] + s
      else x != [] && x[0] != CloseBracket && ListedRest(Texts(items)) + s == [Comma] + x
  {
  }

  lemma {:induction false} ArrayIsReadOneWay(v: Js, w: Js, s: Text, t: Text)
    requires v.Arr? && w.Arr? && IsValue(v) && IsValue(w)
    requires Listed(Texts(v.items)) + s == Listed(Texts(w.items)) + t
    ensures Same(v, w) && s == t
    decreases v, 1, 0
  {
    ListOpens(v.items, s);
    ListOpens(w.items, t);
    TextsAre(v.items);
    TextsAre(w.items);
    if v.items != [] && w.items != [] {
      assert Texts(v.items)[0..] == Texts(v.items) && Texts(w.items)[0..] == Texts(w.items);
      ItemsAreReadOneWay(v, w, 0, s, t);
    } else {
      assert ([CloseBracket] + s)[1..] == s && ([CloseBracket] + t)[1..] == t;
    }
  }

  /** Both lists end here, or both go on with a comma and one more text. */
  lemma {:induction false} RestIsReadOneWay(a: seq<Text>, b: seq<Text>, s: Text, t: Text)
    requires ListedRest(a) + s == ListedRest(b) + t
    ensures a == [] <==> b == []
    ensures a == [] ==> s == t
    ensures a != [] ==> a[0] + (ListedRest(a[1..]) + s) == b[0] + (ListedRest(b[1..]) + t)
  {
    var x, y := ListedRest(a) + s, ListedRest(b) + t;
    assert x[0] == if a == [] then CloseBracket else Comma;
    assert y[0] == if b == [] then CloseBracket else Comma;
    assert x[1..] == if a == [] then s else a[0] + (ListedRest(a[1..]) + s);
    assert y[1..] == if b == [] then t else b[0] + (ListedRest(b[1..]) + t);
  }

  lemma {:induction false} ItemsAreReadOneWay(v: Js, w: Js, k: nat, s: Text, t: Text)
    requires v.Arr? && w.Arr? && IsValue(v) && IsValue(w) && k <= |v.items| && k <= |w.items|
    requires |Texts(v.items)| == |v.items| && |Texts(w.items)| == |w.items|
    requires ListedRest(Texts(v.items)[k..]) + s == ListedRest(Texts(w.items)[k..]) + t
    ensures |v.items| == |w.items| && s == t
    ensures forall i :: k <= i < |v.items| ==> Same(v.items[i], w.items[i])
    decreases v, 0, |v.items| - k
  {
    var a, b := Texts(v.items)[k..], Texts(w.items)[k..];
    RestIsReadOneWay(a, b, s, t);
    if a != [] {
      TextsAre(v.items);
      TextsAre(w.items);
      TextIsReadOneWay(v.items[k], w.items[k], ListedRest(a[1..]) + s, ListedRest(b[1..]) + t);
      assert a[1..] == Texts(v.items)[k + 1..] && b[1..] == Texts(w.items)[k + 1..];
      ItemsAreReadOneWay(v, w, k + 1, s, t);
    }
  }

  lemma {:induction false} ObjectIsReadOneWay(v: Js, w: Js, s: Text, t: Text)
    requires v.Obj? && w.Obj? && IsValue(v) && IsValue(w)
    requires Braced(SortBy(ByKey(), Entries(v.members))) + s == Braced(SortBy(ByKey(), Entries(w.members))) + t
    ensures Same(v, w) && s == t
    decreases v, 1, 0
  {
    var a := SortedEntries(v.members);
    var b := SortedEntries(w.members);
    BraceIsReadOneWay(a, b, s, t);
    if a != [] {
      MembersAreReadOneWay(v, w, a, b, s, t);
    }
    SameEntriesSameKeys(v.members, w.members);
    SameEntriesSameKeys(w.members, v.members);
    forall i, j | 0 <= i < |v.members| && 0 <= j < |w.members| && v.members[i].key == w.members[j].key
      ensures Same(v.members[i].value, w.members[j].value)
    {
      SameEntriesSameValues(v.members, w.members, i, j);
      TextIsReadOneWay(v.members[i].value, w.members[j].value, [], []);
    }
  }

  /** An object's text is a comma away from the text of further properties. */
  lemma {:induction false} BraceOpens(a: seq<Entry>, s: Text)
    ensures var x := Braced(a) + s;
      if a == [] then x == [CloseBrace] + s
      else x != [] && x[0] == TStr(a[0].key) && BracedRest(a) + s == [Comma] + x
  {
    if a != [] {
      var rest := a[0].text + BracedRest(a[1..]);
      assert Braced(a) == [TStr(a[0].key), Colon] + rest;
      assert BracedRest(a) == [Comma, TStr(a[0].key), Colon] + rest;
    }
  }

  lemma {:induction false} BraceIsReadOneWay(a: seq<Entry>, b: seq<Entry>, s: Text, t: Text)
    requires Braced(a) + s == Braced(b) + t
    ensures a == [] <==> b == []
    ensures a == [] ==> s == t
    ensures a != [] ==> BracedRest(a) + s == BracedRest(b) + t
  {
    BraceOpens(a, s);
    BraceOpens(b, t);
    if a == [] && b == [] {
      assert ([CloseBrace] + s)[1..] == s && ([CloseBrace] + t)[1..] == t;
    }
  }

  lemma {:induction false} BraceRestIsReadOneWay(a: seq<Entry>, b: seq<Entry>, s: Text, t: Text)
    requires BracedRest(a) + s == BracedRest(b) + t
    ensures a == [] <==> b == []
    ensures a == [] ==> s == t
    ensures a != [] ==> a[0].key == b[0].key && a[0].text + (BracedRest(a[1..]) + s) == b[0].text + (BracedRest(b[1..]) + t)
  {
    var x, y := BracedRest(a) + s, BracedRest(b) + t;
    assert x[0] == if a == [] then CloseBrace else Comma;
    assert y[0] == if b == [] then CloseBrace else Comma;
    if a != [] && b != [] {
      assert x[1] == TStr(a[0].key) && y[1] == TStr(b[0].key);
      assert x[3..] == a[0].text + (BracedRest(a[1..]) + s) && y[3..] == b[0].text + (BracedRest(b[1..]) + t);
    } else {
      assert a == [] ==> x[1..] == s;
      assert b == [] ==> y[1..] == t;
    }
  }

  lemma {:induction false} SameEntriesSameKeys(a: seq<Member>, b: seq<Member>)
    requires SortBy(ByKey(), Entries(a)) == SortBy(ByKey(), Entries(b))
    ensures forall m :: m in a ==> HasKey(b, m.key)
  {
    var s := SortedEntries(a);
    var t := SortedEntries(b);
    EntriesAre(a);
    EntriesAre(b);
    forall m | m in a ensures HasKey(b, m.key) {
      var i :| 0 <= i < |a| && a[i] == m;
      assert Entries(a)[i] in s;
      var j :| 0 <= j < |b| && Entries(b)[j] == Entries(a)[i];
      assert b[j] in b;
    }
  }

  lemma {:induction false} SameEntriesSameValues(a: seq<Member>, b: seq<Member>, i: nat, j: nat)
    requires SortBy(ByKey(), Entries(a)) == SortBy(ByKey(), Entries(b)) && KeysApart(b)
    requires i < |a| && j < |b| && a[i].key == b[j].key
    ensures Canon(a[i].value) == Canon(b[j].value)
  {
    var s := SortedEntries(a);
    var t := SortedEntries(b);
    EntriesAre(a);
    EntriesAre(b);
    assert Entries(a)[i] in s;
    var k :| 0 <= k < |b| && Entries(b)[k] == Entries(a)[i];
  }

  lemma {:induction false} MembersAreReadOneWay(v: Js, w: Js, a: seq<Entry>, b: seq<Entry>, s: Text, t: Text)
    requires v.Obj? && w.Obj? && IsValue(v) && IsValue(w)
    requires (forall e :: e in a ==> e in Entries(v.members)) && (forall e :: e in b ==> e in Entries(w.members))
    requires BracedRest(a) + s == BracedRest(b) + t
    ensures a == b && s == t
    decreases v, 0, |a|
  {
    BraceRestIsReadOneWay(a, b, s, t);
    if a != [] {
      var sRest, tRest := BracedRest(a[1..]) + s, BracedRest(b[1..]) + t;
      EntriesAre(v.members);
      EntriesAre(w.members);
      assert a[0] in a && b[0] in b;
      var i :| 0 <= i < |v.members| && Entries(v.members)[i] == a[0];
      var j :| 0 <= j < |w.members| && Entries(w.members)[j] == b[0];
      TextIsReadOneWay(v.members[i].value, w.members[j].value, sRest, tRest);
      SameFront(a[0].text, b[0].text, sRest);
      MembersAreReadOneWay(v, w, a[1..], b[1..], s, t);
      assert a == [a[0]] + a[1..] && b == [b[0]] + b[1..];
    }
  }

  lemma {:induction false} SameFront(a: Text, b: Text, rest: Text)
    requires a + rest == b + rest
    ensures a == b
  {
    assert |a| == |b|;
    assert a == (a + rest)[..|a|] && b == (b + rest)[..|b|];
  }

  /**
   * The canonical text tells content from content and nothing else: it is independent of the
   * order of keys at every depth, and only `undefined` and null read alike.
   */
  lemma {:induction false} CanonTellsContent(v: Js, w: Js)
    requires IsValue(v) && IsValue(w)
    ensures Canon(v) == Canon(w) <==> Same(v, w)
  {
    if Same(v, w) {
      SameContentSameText(v, w);
    }
    if Canon(v) == Canon(w) {
      TextIsReadOneWay(v, w, [], []);
    }
  }

  /** A missing property and one that is `undefined` read differently. */
  lemma {:induction false} UndefinedIsNotMissing(key: string)
    ensures Canon(Obj([Member(key, Undefined)])) != Canon(Obj([]))
    ensures Canon(Obj([Member(key, Undefined)])) == Canon(Obj([Member(key, Null)]))
  {
    var v, w, n := Obj([Member(key, Undefined)]), Obj([]), Obj([Member(key, Null)]);
    assert Member(key, Undefined) in v.members;
    assert !HasKey(w.members, key);
    CanonTellsContent(v, w);
    assert Entries(v.members) == [Entry(key, [TNull])] + Entries(v.members[1..]);
    assert Entries(n.members) == [Entry(key, [TNull])] + Entries(n.members[1..]);
  }
}
