/**
 `canonicalJsonStringify` (utils/helpers.ts): keys are sorted at every depth before a value is written.
 */
module CanonicalJson {
  // So a MINT set member does not depend on the key order of the provider that sent it. A member named
  // `__proto__` is lost on the way, because the sorted object is an ordinary one. Scalars are
  // kept as the text JSON.stringify gives them (a bigint becomes a quoted number there). The output is a
  // token stream: quoting and escaping of single strings is below this model.

  import opened Ordering
  import opened Wrappers

  datatype Json = Scalar(text: string) | Arr(items: Items) | Obj(members: Members)
  datatype Items = NoItem | Item(first: Json, others: Items)
  datatype Members = NoMember | Member(key: string, value: Json, rest: Members)

  datatype Token = Text(text: string) | Name(key: string) | OpenArr | CloseArr | OpenObj | CloseObj | Comma | Colon

  function Keys(ms: Members): set<string> {
    if ms.NoMember? then {} else {ms.key} + Keys(ms.rest)
  }

  function Lookup(ms: Members, key: string): Option<Json> {
    if ms.NoMember? then None else if ms.key == key then Some(ms.value) else Lookup(ms.rest, key)
  }

  /** No object names a key twice. */
  predicate WellFormed(j: Json) {
    match j
    case Scalar(_) => true
    case Arr(items) => WellFormedItems(items)
    case Obj(members) => WellFormedMembers(members)
  }

  predicate WellFormedItems(items: Items) {
    items.NoItem? || (WellFormed(items.first) && WellFormedItems(items.others))
  }

  predicate WellFormedMembers(ms: Members) {
    ms.NoMember? || (ms.key !in Keys(ms.rest) && WellFormed(ms.value) && WellFormedMembers(ms.rest))
  }

  // ---------- The order of object keys ----------

  predicate Digits(s: string) {
    forall c <- s :: '0' <= c <= '9'
  }

  /** A key that a JavaScript object keeps as an array index: a canonical decimal below 2^32 - 1. */
  predicate IsIndex(s: string) {
    s == "0" || (s != [] && s[0] != '0' && Digits(s) && (|s| < 10 || (|s| == 10 && Before(s, "4294967295"))))
  }

  /** Property order after insertion in sorted order: indices first, by value, then the rest as sorted. */
  predicate KeyBefore(a: string, b: string) {
    if IsIndex(a) && IsIndex(b) then |a| < |b| || (|a| == |b| && Before(a, b))
    else if IsIndex(a) || IsIndex(b) then IsIndex(a)
    else Before(a, b)
  }

  lemma KeyOrder(a: string, b: string, c: string)
    ensures a == b || KeyBefore(a, b) || KeyBefore(b, a)
    ensures !(KeyBefore(a, b) && KeyBefore(b, a)) && !KeyBefore(a, a)
    ensures KeyBefore(a, b) && KeyBefore(b, c) ==> KeyBefore(a, c)
  {
    BeforeIsTotal(a, b);
    BeforeIsTotal(a, a);
    if Before(a, b) && Before(b, c) { BeforeIsTransitive(a, b, c); }
  }

  // ---------- Sorting and writing ----------

  function SortKeys(j: Json): Json {
    match j
    case Scalar(_) => j
    case Arr(items) => Arr(SortItems(items))
    case Obj(members) => Obj(SortMembers(members))
  }

  function SortItems(items: Items): Items {
    if items.NoItem? then NoItem else Item(SortKeys(items.first), SortItems(items.others))
  }

  /** Assigning this key of an ordinary object sets its prototype, which is not written. */
  const PROTO := "__proto__"

  function SortMembers(ms: Members): Members {
    if ms.NoMember? then NoMember
    else if ms.key == PROTO then SortMembers(ms.rest)
    else InsertMember(ms.key, SortKeys(ms.value), SortMembers(ms.rest))
  }

  function InsertMember(key: string, value: Json, ms: Members): Members {
    if ms.NoMember? || KeyBefore(key, ms.key) then Member(key, value, ms)
    else ms.(rest := InsertMember(key, value, ms.rest))
  }

  function Write(j: Json): seq<Token> {
    match j
    case Scalar(text) => [Text(text)]
    case Arr(items) => [OpenArr] + WriteItems(items, true)
    case Obj(members) => [OpenObj] + WriteMembers(members, true)
  }

  function WriteItems(items: Items, first: bool): seq<Token> {
    if items.NoItem? then [CloseArr]
    else (if first then [] else [Comma]) + Write(items.first) + WriteItems(items.others, false)
  }

  function WriteMembers(ms: Members, first: bool): seq<Token> {
    if ms.NoMember? then [CloseObj]
    else (if first then [] else [Comma]) + [Name(ms.key), Colon] + Write(ms.value) + WriteMembers(ms.rest, false)
  }

  function CanonicalJsonStringify(j: Json): seq<Token> {
    Write(SortKeys(j))
  }

  // ---------- Equality up to key order ----------

  /** The same value, objects read as maps. */
  predicate Same(a: Json, b: Json) {
    match a
    case Scalar(_) => a == b
    case Arr(items) => b.Arr? && SameItems(items, b.items)
    case Obj(members) => b.Obj? && Keys(members) == Keys(b.members) && Agree(members, b.members)
  }

  predicate SameItems(a: Items, b: Items) {
    if a.NoItem? then b.NoItem? else b.Item? && Same(a.first, b.first) && SameItems(a.others, b.others)
  }

  predicate Agree(a: Members, b: Members) {
    a.NoMember? || (Lookup(b, a.key).Some? && Same(a.value, Lookup(b, a.key).value) && Agree(a.rest, b))
  }

  // ---------- Values without the key that gets lost ----------

  /** No object, at any depth, has a key `__proto__`. */
  predicate Plain(j: Json) {
    match j
    case Scalar(_) => true
    case Arr(items) => PlainItems(items)
    case Obj(members) => PlainMembers(members)
  }

  predicate PlainItems(items: Items) {
    items.NoItem? || (Plain(items.first) && PlainItems(items.others))
  }

  predicate PlainMembers(ms: Members) {
    ms.NoMember? || (ms.key != PROTO && Plain(ms.value) && PlainMembers(ms.rest))
  }

  /** The value without such members. */
  function Stripped(j: Json): Json {
    match j
    case Scalar(_) => j
    case Arr(items) => Arr(StrippedItems(items))
    case Obj(members) => Obj(StrippedMembers(members))
  }

  function StrippedItems(items: Items): Items {
    if items.NoItem? then NoItem else Item(Stripped(items.first), StrippedItems(items.others))
  }

  function StrippedMembers(ms: Members): Members {
    if ms.NoMember? then NoMember
    else if ms.key == PROTO then StrippedMembers(ms.rest)
    else Member(ms.key, Stripped(ms.value), StrippedMembers(ms.rest))
  }

  function StrippedValue(o: Option<Json>): Option<Json> {
    if o.None? then None else Some(Stripped(o.value))
  }

  lemma {:induction false} StripLooksUp(ms: Members, k: string)
    ensures Keys(StrippedMembers(ms)) == Keys(ms) - {PROTO}
    ensures k != PROTO ==>
              Lookup(StrippedMembers(ms), k) == StrippedValue(Lookup(ms, k))
  {
    if ms.Member? { StripLooksUp(ms.rest, k); }
  }

  /** Sorting does not see them. */
  lemma {:induction false} StrippedSortsSame(j: Json)
    requires WellFormed(j)
    ensures WellFormed(Stripped(j)) && Plain(Stripped(j)) && SortKeys(Stripped(j)) == SortKeys(j)
    ensures Plain(j) ==> Stripped(j) == j
  {
    match j
    case Scalar(_) =>
    case Arr(items) => StrippedItemsSortSame(items);
    case Obj(members) => StrippedMembersSortSame(members);
  }

  lemma {:induction false} StrippedItemsSortSame(items: Items)
    requires WellFormedItems(items)
    ensures WellFormedItems(StrippedItems(items)) && PlainItems(StrippedItems(items))
    ensures SortItems(StrippedItems(items)) == SortItems(items) && (PlainItems(items) ==> StrippedItems(items) == items)
  {
    if items.Item? {
      StrippedSortsSame(items.first);
      StrippedItemsSortSame(items.others);
    }
  }

  lemma {:induction false} StrippedMembersSortSame(ms: Members)
    requires WellFormedMembers(ms)
    ensures WellFormedMembers(StrippedMembers(ms)) && PlainMembers(StrippedMembers(ms))
    ensures SortMembers(StrippedMembers(ms)) == SortMembers(ms) && (PlainMembers(ms) ==> StrippedMembers(ms) == ms)
  {
    if ms.Member? {
      StrippedSortsSame(ms.value);
      StrippedMembersSortSame(ms.rest);
      StripLooksUp(ms.rest, ms.key);
    }
  }

  /** Values that differ in key order only still do without those members. */
  lemma {:induction false} SameStripped(a: Json, b: Json)
    requires Same(a, b)
    ensures Same(Stripped(a), Stripped(b))
    decreases a
  {
    match a
    case Scalar(_) =>
    case Arr(items) => SameItemsStripped(items, b.items);
    case Obj(members) =>
      StripLooksUp(members, "");
      StripLooksUp(b.members, "");
      AgreeStripped(members, b.members);
  }

  lemma {:induction false} SameItemsStripped(a: Items, b: Items)
    requires SameItems(a, b)
    ensures SameItems(StrippedItems(a), StrippedItems(b))
    decreases a
  {
    if a.Item? {
      SameStripped(a.first, b.first);
      SameItemsStripped(a.others, b.others);
    }
  }

  lemma {:induction false} AgreeStripped(a: Members, b: Members)
    requires Agree(a, b)
    ensures Agree(StrippedMembers(a), StrippedMembers(b))
    decreases a
  {
    if a.Member? {
      AgreeStripped(a.rest, b);
      SameStripped(a.value, Lookup(b, a.key).value);
      StripLooksUp(b, a.key);
    }
  }

  /** Losing them changes the value, wherever they are. */
  lemma {:induction false} StrippedIsSame(j: Json)
    requires WellFormed(j)
    ensures Same(j, Stripped(j)) <==> Plain(j)
    decreases j
  {
    match j
    case Scalar(_) =>
    case Arr(items) => StrippedItemsAreSame(items);
    case Obj(members) =>
      StripLooksUp(members, "");
      PlainIsKeyless(members);
      if PROTO !in Keys(members) {
        forall k: string ensures Lookup(StrippedMembers(members), k) == StrippedValue(Lookup(members, k)) {
          StripLooksUp(members, k);
          LookupIsKey(members, k);
          LookupIsKey(StrippedMembers(members), k);
        }
        StrippedAgrees(members, members);
      }
  }

  lemma {:induction false} StrippedItemsAreSame(items: Items)
    requires WellFormedItems(items)
    ensures SameItems(items, StrippedItems(items)) <==> PlainItems(items)
    decreases items
  {
    if items.Item? {
      StrippedIsSame(items.first);
      StrippedItemsAreSame(items.others);
    }
  }

  lemma {:induction false} PlainIsKeyless(ms: Members)
    ensures PlainMembers(ms) ==> PROTO !in Keys(ms)
  {
    if ms.Member? { PlainIsKeyless(ms.rest); }
  }

  /** The members of the tail `ms` of an object against the stripped object. */
  lemma {:induction false} StrippedAgrees(ms: Members, all: Members)
    requires WellFormedMembers(ms) && PROTO !in Keys(ms)
    requires forall k <- Keys(ms) :: Lookup(all, k) == Lookup(ms, k)
    requires forall k <- Keys(ms) ::
               Lookup(StrippedMembers(all), k) == StrippedValue(Lookup(all, k))
    ensures Agree(ms, StrippedMembers(all)) <==> PlainMembers(ms)
    decreases ms
  {
    if ms.Member? {
      StrippedIsSame(ms.value);
      assert forall k <- Keys(ms.rest) :: k in Keys(ms) && k != ms.key && Lookup(ms, k) == Lookup(ms.rest, k);
      StrippedAgrees(ms.rest, all);
      assert ms.key in Keys(ms) && Lookup(ms, ms.key) == Some(ms.value);
    }
  }

  // ---------- Sorted objects ----------

  predicate AscendingKeys(ms: Members) {
    ms.NoMember? || ((ms.rest.Member? ==> KeyBefore(ms.key, ms.rest.key)) && AscendingKeys(ms.rest))
  }

  function Sorted(o: Option<Json>): Option<Json> {
    if o.None? then None else Some(SortKeys(o.value))
  }

  lemma {:induction false} InsertLooksUp(key: string, value: Json, ms: Members, k: string)
    requires key !in Keys(ms)
    ensures Lookup(InsertMember(key, value, ms), k) == if k == key then Some(value) else Lookup(ms, k)
    ensures Keys(InsertMember(key, value, ms)) == Keys(ms) + {key}
  {
    if ms.Member? && !KeyBefore(key, ms.key) { InsertLooksUp(key, value, ms.rest, k); }
  }

  lemma {:induction false} LookupIsKey(ms: Members, k: string)
    ensures Lookup(ms, k).Some? <==> k in Keys(ms)
  {
    if ms.Member? { LookupIsKey(ms.rest, k); }
  }

  lemma {:induction false} SortLooksUp(ms: Members, k: string)
    requires WellFormedMembers(ms) && PlainMembers(ms)
    ensures Lookup(SortMembers(ms), k) == Sorted(Lookup(ms, k)) && Keys(SortMembers(ms)) == Keys(ms)
  {
    if ms.Member? {
      SortLooksUp(ms.rest, k);
      InsertLooksUp(ms.key, SortKeys(ms.value), SortMembers(ms.rest), k);
      LookupIsKey(ms.rest, k);
    }
  }

  lemma {:induction false} InsertKeepsOrder(key: string, value: Json, ms: Members)
    requires AscendingKeys(ms) && key !in Keys(ms)
    ensures AscendingKeys(InsertMember(key, value, ms))
  {
    if ms.Member? && !KeyBefore(key, ms.key) {
      KeyOrder(key, ms.key, key);
      InsertKeepsOrder(key, value, ms.rest);
    }
  }

  lemma {:induction false} SortMembersAscends(ms: Members)
    requires WellFormedMembers(ms) && PlainMembers(ms)
    ensures AscendingKeys(SortMembers(ms))
  {
    if ms.Member? {
      SortMembersAscends(ms.rest);
      SortLooksUp(ms.rest, ms.key);
      InsertKeepsOrder(ms.key, SortKeys(ms.value), SortMembers(ms.rest));
    }
  }

  lemma {:induction false} FirstIsLeast(ms: Members, k: string)
    requires AscendingKeys(ms) && ms.Member? && k in Keys(ms.rest)
    ensures KeyBefore(ms.key, k)
  {
    if k != ms.rest.key {
      FirstIsLeast(ms.rest, k);
      KeyOrder(ms.key, ms.rest.key, k);
    }
  }

  /** Ascending objects with the same lookups are the same object. */
  lemma {:induction false} AscendingMembersAreUnique(a: Members, b: Members)
    requires AscendingKeys(a) && AscendingKeys(b) && forall k: string :: Lookup(a, k) == Lookup(b, k)
    ensures a == b
  {
    assert a.Member? ==> Lookup(a, a.key).Some?;
    assert b.Member? ==> Lookup(b, b.key).Some?;
    if a.Member? && b.Member? {
      LookupIsKey(b, a.key);
      LookupIsKey(a, b.key);
      if a.key != b.key {
        FirstIsLeast(b, a.key);
        FirstIsLeast(a, b.key);
        KeyOrder(a.key, b.key, a.key);
      }
      TailsAgree(a, b);
      AscendingMembersAreUnique(a.rest, b.rest);
    }
  }

  lemma TailsAgree(a: Members, b: Members)
    requires AscendingKeys(a) && AscendingKeys(b) && a.Member? && b.Member? && a.key == b.key
    requires forall k: string :: Lookup(a, k) == Lookup(b, k)
    ensures a.value == b.value && forall k: string :: Lookup(a.rest, k) == Lookup(b.rest, k)
  {
    assert Lookup(a, a.key) == Lookup(b, a.key);
    forall k: string ensures Lookup(a.rest, k) == Lookup(b.rest, k) {
      LookupIsKey(a.rest, k);
      LookupIsKey(b.rest, k);
      if k == a.key {
        if k in Keys(a.rest) { FirstIsLeast(a, k); KeyOrder(k, k, k); }
        if k in Keys(b.rest) { FirstIsLeast(b, k); KeyOrder(k, k, k); }
      } else {
        assert Lookup(a, k) == Lookup(b, k);
      }
    }
  }

  // ---------- Sorting keys is exactly forgetting their order ----------

  lemma {:induction false} PlainForgetsOrder(a: Json, b: Json)
    requires WellFormed(a) && WellFormed(b) && Plain(a) && Plain(b)
    ensures SortKeys(a) == SortKeys(b) <==> Same(a, b)
    decreases a, 1
  {
    match a
    case Scalar(_) =>
    case Arr(items) => if b.Arr? { ItemsForgetOrder(items, b.items); }
    case Obj(members) => if b.Obj? { ObjectsForgetOrder(members, b.members); }
  }

  lemma {:induction false} ItemsForgetOrder(a: Items, b: Items)
    requires WellFormedItems(a) && WellFormedItems(b) && PlainItems(a) && PlainItems(b)
    ensures SortItems(a) == SortItems(b) <==> SameItems(a, b)
    decreases a
  {
    if a.Item? && b.Item? {
      PlainForgetsOrder(a.first, b.first);
      ItemsForgetOrder(a.others, b.others);
    }
  }

  lemma {:induction false} ObjectsForgetOrder(a: Members, b: Members)
    requires WellFormedMembers(a) && WellFormedMembers(b) && PlainMembers(a) && PlainMembers(b)
    ensures SortMembers(a) == SortMembers(b) <==> Keys(a) == Keys(b) && Agree(a, b)
    decreases a, 2
  {
    AgreementIsLookup(a, b);
    SortMembersAscends(a);
    SortMembersAscends(b);
    forall k: string
      ensures Lookup(SortMembers(a), k) == Sorted(Lookup(a, k)) && (Lookup(a, k).Some? <==> k in Keys(a))
      ensures Lookup(SortMembers(b), k) == Sorted(Lookup(b, k)) && (Lookup(b, k).Some? <==> k in Keys(b))
    {
      SortLooksUp(a, k);
      SortLooksUp(b, k);
      LookupIsKey(a, k);
      LookupIsKey(b, k);
    }
    if SortMembers(a) == SortMembers(b) {
      forall k: string ensures k in Keys(a) <==> k in Keys(b) {
        assert Sorted(Lookup(a, k)) == Sorted(Lookup(b, k));
      }
    } else if Keys(a) == Keys(b) && Agree(a, b) {
      forall k: string ensures Lookup(SortMembers(a), k) == Lookup(SortMembers(b), k) {
        assert k in Keys(a) <==> k in Keys(b);
        if k in Keys(a) { assert Sorted(Lookup(a, k)) == Sorted(Lookup(b, k)); }
      }
      AscendingMembersAreUnique(SortMembers(a), SortMembers(b));
    }
  }

  /** `Agree` says: every key of `a` has the same sorted value in `b`. */
  lemma {:induction false} AgreementIsLookup(a: Members, b: Members)
    requires WellFormedMembers(a) && WellFormedMembers(b) && PlainMembers(a) && PlainMembers(b)
    ensures Agree(a, b) <==> forall k <- Keys(a) :: Sorted(Lookup(a, k)) == Sorted(Lookup(b, k))
    decreases a, 1
  {
    if a.Member? {
      AgreementIsLookup(a.rest, b);
      FirstAgrees(a, b);
      assert forall k <- Keys(a.rest) :: k in Keys(a) && Lookup(a, k) == Lookup(a.rest, k);
      assert forall k <- Keys(a) :: k == a.key || k in Keys(a.rest);
      assert Agree(a, b) <==> Sorted(Lookup(a, a.key)) == Sorted(Lookup(b, a.key)) && Agree(a.rest, b);
    }
  }

  lemma FirstAgrees(a: Members, b: Members)
    requires a.Member? && WellFormedMembers(a) && WellFormedMembers(b) && PlainMembers(a) && PlainMembers(b)
    ensures Lookup(a, a.key) == Some(a.value) && a.key !in Keys(a.rest)
    ensures (Lookup(b, a.key).Some? && Same(a.value, Lookup(b, a.key).value)) <==>
              Sorted(Lookup(a, a.key)) == Sorted(Lookup(b, a.key))
    decreases a, 0
  {
    LookupIsWellFormed(b, a.key);
    if Lookup(b, a.key).Some? { PlainForgetsOrder(a.value, Lookup(b, a.key).value); }
  }

  lemma {:induction false} LookupIsWellFormed(ms: Members, k: string)
    requires WellFormedMembers(ms) && PlainMembers(ms)
    ensures Lookup(ms, k).Some? ==> WellFormed(Lookup(ms, k).value) && Plain(Lookup(ms, k).value)
  {
    if ms.Member? && ms.key != k { LookupIsWellFormed(ms.rest, k); }
  }

  /** Sorted forms agree exactly when the values, without their `__proto__` members, agree as maps. */
  lemma SortForgetsOrder(a: Json, b: Json)
    requires WellFormed(a) && WellFormed(b)
    ensures SortKeys(a) == SortKeys(b) <==> Same(Stripped(a), Stripped(b))
  {
    StrippedSortsSame(a);
    StrippedSortsSame(b);
    PlainForgetsOrder(Stripped(a), Stripped(b));
  }

  // ---------- Writing loses nothing ----------

  /** No written value is a proper prefix of another. */
  lemma {:induction false} WriteIsPrefixFree(a: Json, b: Json, x: seq<Token>, y: seq<Token>)
    requires Write(a) + x == Write(b) + y
    ensures a == b && x == y
    decreases a
  {
    assert (Write(a) + x)[0] == Write(a)[0] && (Write(b) + y)[0] == Write(b)[0];
    match a
    case Scalar(_) =>
      assert x == (Write(a) + x)[1..] && y == (Write(b) + y)[1..];
    case Arr(items) =>
      assert WriteItems(items, true) + x == (Write(a) + x)[1..];
      assert WriteItems(b.items, true) + y == (Write(b) + y)[1..];
      ItemsArePrefixFree(items, b.items, true, x, y);
    case Obj(members) =>
      assert WriteMembers(members, true) + x == (Write(a) + x)[1..];
      assert WriteMembers(b.members, true) + y == (Write(b) + y)[1..];
      MembersArePrefixFree(members, b.members, true, x, y);
  }

  lemma WrittenStart(j: Json)
    ensures Write(j) != [] && (Write(j)[0].Text? || Write(j)[0].OpenArr? || Write(j)[0].OpenObj?)
  {
  }

  lemma ItemsOpen(a: Items, first: bool, x: seq<Token>)
    ensures var s := WriteItems(a, first) + x;
            && s != []
            && (a.NoItem? ==> s[0] == CloseArr && s[1..] == x)
            && (a.Item? ==>
                s[0] != CloseArr && s[if first then 0 else 1..] == Write(a.first) + (WriteItems(a.others, false) + x))
  {
    if a.Item? {
      WrittenStart(a.first);
      var comma := if first then [] else [Comma];
      assert WriteItems(a, first) + x == comma + (Write(a.first) + (WriteItems(a.others, false) + x));
    }
  }

  lemma {:induction false} ItemsArePrefixFree(a: Items, b: Items, first: bool, x: seq<Token>, y: seq<Token>)
    requires WriteItems(a, first) + x == WriteItems(b, first) + y
    ensures a == b && x == y
    decreases a
  {
    hide Write, WriteItems;
    ItemsOpen(a, first, x);
    ItemsOpen(b, first, y);
    if a.Item? {
      WriteIsPrefixFree(a.first, b.first, WriteItems(a.others, false) + x, WriteItems(b.others, false) + y);
      ItemsArePrefixFree(a.others, b.others, false, x, y);
    }
  }

  lemma MembersOpen(a: Members, first: bool, x: seq<Token>)
    ensures var s, n := WriteMembers(a, first) + x, if first then 0 else 1;
            && s != []
            && (a.NoMember? ==> s[0] == CloseObj && s[1..] == x)
            && (a.Member? ==>
                  s[0] != CloseObj && |s| > n + 2 && s[n] == Name(a.key)
                  && s[n + 2..] == Write(a.value) + (WriteMembers(a.rest, false) + x))
  {
    hide Write;
    if a.Member? {
      var body := Write(a.value) + (WriteMembers(a.rest, false) + x);
      if first {
        assert WriteMembers(a, first) + x == [Name(a.key), Colon] + body;
        assert |body| > 0 by { WrittenNotEmpty(a.value); }
      } else {
        assert WriteMembers(a, first) + x == [Comma, Name(a.key), Colon] + body;
        assert |body| > 0 by { WrittenNotEmpty(a.value); }
      }
    }
  }

  lemma WrittenNotEmpty(j: Json)
    ensures |Write(j)| > 0
  {
  }

  lemma {:induction false} MembersArePrefixFree(a: Members, b: Members, first: bool, x: seq<Token>, y: seq<Token>)
    requires WriteMembers(a, first) + x == WriteMembers(b, first) + y
    ensures a == b && x == y
    decreases a
  {
    hide Write, WriteMembers;
    MembersOpen(a, first, x);
    MembersOpen(b, first, y);
    if a.Member? {
      WriteIsPrefixFree(a.value, b.value, WriteMembers(a.rest, false) + x, WriteMembers(b.rest, false) + y);
      MembersArePrefixFree(a.rest, b.rest, false, x, y);
    }
  }

  /**
   Two values get the same canonical text exactly when they differ, at any depth, in key order and
   `__proto__` members only.
   */
  lemma CanonicalMeansStrippedSame(a: Json, b: Json)
    requires WellFormed(a) && WellFormed(b)
    ensures CanonicalJsonStringify(a) == CanonicalJsonStringify(b) <==> Same(Stripped(a), Stripped(b))
  {
    SortForgetsOrder(a, b);
    if CanonicalJsonStringify(a) == CanonicalJsonStringify(b) {
      WriteIsPrefixFree(SortKeys(a), SortKeys(b), [], []);
    }
  }

  /** Where no key is `__proto__`, key order is all that the text forgets. */
  lemma CanonicalMeansSame(a: Json, b: Json)
    requires WellFormed(a) && WellFormed(b)
    ensures Same(a, b) ==> CanonicalJsonStringify(a) == CanonicalJsonStringify(b)
    ensures Plain(a) && Plain(b) ==> (CanonicalJsonStringify(a) == CanonicalJsonStringify(b) <==> Same(a, b))
  {
    CanonicalMeansStrippedSame(a, b);
    StrippedSortsSame(a);
    StrippedSortsSame(b);
    if Same(a, b) { SameStripped(a, b); }
  }

  /** A value has the text of the same value without such members, and is that value exactly when it has none. */
  lemma TextKeepsPlainValuesOnly(j: Json)
    requires WellFormed(j)
    ensures WellFormed(Stripped(j)) && CanonicalJsonStringify(j) == CanonicalJsonStringify(Stripped(j))
    ensures Same(j, Stripped(j)) <==> Plain(j)
  {
    StrippedSortsSame(j);
    StrippedIsSame(j);
  }

  /** `{"__proto__":{"a":1}}` and `{}` get the same text and are not the same value. */
  lemma ProtoIsLost()
    ensures var a, b := Obj(Member(PROTO, Obj(Member("a", Scalar("1"), NoMember)), NoMember)), Obj(NoMember);
            WellFormed(a) && WellFormed(b) && CanonicalJsonStringify(a) == CanonicalJsonStringify(b) && !Same(a, b)
  {
    var inner := Member("a", Scalar("1"), NoMember);
    assert WellFormedMembers(inner);
    assert WellFormedMembers(Member(PROTO, Obj(inner), NoMember));
    assert PROTO in Keys(Member(PROTO, Obj(inner), NoMember));
  }
}
