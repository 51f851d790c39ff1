/** src/problems/server/compare.server.ts: when two judge outputs count as the same answer. */
module JudgeCompare {
  import opened Domain
  import opened Json

  /** isJudgeValue; `Obj` stands for every value that is not null, a boolean, a string, an integer or an array. */
  predicate IsJudgeValue(v: Value, depth: nat)
    decreases v
  {
    depth <= 100
    && match v
       case Num(n) => -MAX_SAFE_INTEGER <= n <= MAX_SAFE_INTEGER
       case List(items) => forall i :: 0 <= i < |items| ==> IsJudgeValue(items[i], depth + 1)
       case Obj(_) => false
       case _ => true
  }

  /** Every number in the value is a safe integer. */
  predicate SafeNumbers(v: Value)
    decreases v
  {
    && (v.Num? ==> -9_007_199_254_740_991 <= v.n <= 9_007_199_254_740_991)
    && (v.List? ==> forall i :: 0 <= i < |v.items| ==> SafeNumbers(v.items[i]))
  }

  lemma {:induction false} JudgeItems(items: seq<Value>, depth: nat)
    requires items != []
    ensures (forall i :: 0 <= i < |items| ==> IsJudgeValue(items[i], depth))
            <==> (forall i :: 0 <= i < |items| ==> ObjectFree(items[i]) && SafeNumbers(items[i]))
                 && depth + Deepest(items) <= 100
    decreases items
  {
    hide IsJudgeValue, ObjectFree, SafeNumbers, Nesting;
    JudgeValuesExactly(items[0], depth);
    if |items| > 1 {
      JudgeItems(items[1..], depth);
      assert forall i :: 1 <= i < |items| ==> items[i] == items[1..][i - 1];
    }
  }

  /** A judge value is null, a boolean, a string, a safe integer or a list of such, nested at most 100 deep. */
  lemma {:induction false} JudgeValuesExactly(v: Value, depth: nat)
    ensures IsJudgeValue(v, depth) <==> ObjectFree(v) && SafeNumbers(v) && depth + Nesting(v) <= 100
    decreases v
  {
    if v.List? && v.items != [] {
      JudgeItems(v.items, depth + 1);
    }
  }

  lemma {:induction false} JudgeValuesPrint(v: Value, depth: nat)
    requires IsJudgeValue(v, depth)
    ensures Printed(Stringify, v, depth).Some? && Representable(v)
    decreases v
  {
    if v.List? {
      forall i | 0 <= i < |v.items|
        ensures Printed(Stringify, v.items[i], depth + 1).Some? && Representable(v.items[i])
      {
        JudgeValuesPrint(v.items[i], depth + 1);
      }
      ItemsPrint(Stringify, v.items, depth + 1);
    }
  }

  /** JSON.stringify of a judge value. */
  function ExactKey(v: Value): Text
    requires IsJudgeValue(v, 0)
  {
    JudgeValuesPrint(v, 0);
    Printed(Stringify, v, 0).value
  }

  lemma ExactKeysDecideEquality(v: Value, w: Value)
    requires IsJudgeValue(v, 0) && IsJudgeValue(w, 0)
    ensures ExactKey(v) == ExactKey(w) <==> v == w
  {
    JudgeValuesPrint(v, 0);
    JudgeValuesPrint(w, 0);
    if ExactKey(v) == ExactKey(w) {
      PrinterInjective(Stringify, v, w);
    }
  }

  // ----- sorting

  type Order<!T> = (T, T) -> bool

  ghost predicate Total<T(!new)>(leq: Order<T>) {
    && (forall a, b :: leq(a, b) || leq(b, a))
    && (forall a, b, c :: leq(a, b) && leq(b, c) ==> leq(a, c))
  }

  function Insert<T>(x: T, s: seq<T>, leq: Order<T>): seq<T> {
    if s == [] then [x]
    else if leq(x, s[0]) then [x] + s
    else [s[0]] + Insert(x, s[1..], leq)
  }

  /** A stable sort: elements the order ties keep their positions. */
  function Sort<T>(s: seq<T>, leq: Order<T>): seq<T> {
    if s == [] then [] else Insert(s[0], Sort(s[1..], leq), leq)
  }

  predicate Sorted<T>(s: seq<T>, leq: Order<T>) {
    forall i, j :: 0 <= i < j < |s| ==> leq(s[i], s[j])
  }

  lemma {:induction false} InsertKeepsBag<T>(x: T, s: seq<T>, leq: Order<T>)
    ensures multiset(Insert(x, s, leq)) == multiset(s) + multiset{x}
  {
    if s != [] {
      assert s == [s[0]] + s[1..];
      if !leq(x, s[0]) {
        InsertKeepsBag(x, s[1..], leq);
      }
    }
  }

  lemma {:induction false} SortKeepsBag<T>(s: seq<T>, leq: Order<T>)
    ensures multiset(Sort(s, leq)) == multiset(s)
  {
    if s != [] {
      SortKeepsBag(s[1..], leq);
      InsertKeepsBag(s[0], Sort(s[1..], leq), leq);
      assert s == [s[0]] + s[1..];
    }
  }

  lemma {:induction false} InsertSorts<T(!new)>(x: T, s: seq<T>, leq: Order<T>)
    requires Total(leq) && Sorted(s, leq)
    ensures Sorted(Insert(x, s, leq), leq)
  {
    if s != [] && !leq(x, s[0]) {
      var rest := Insert(x, s[1..], leq);
      InsertSorts(x, s[1..], leq);
      InsertKeepsBag(x, s[1..], leq);
      forall j | 0 <= j < |rest|
        ensures leq(s[0], rest[j])
      {
        assert rest[j] in multiset(rest);
        if rest[j] != x {
          assert rest[j] in s[1..];
        }
      }
    } else if s != [] {
      forall j | 0 <= j < |s|
        ensures leq(x, s[j])
      {
        assert j > 0 ==> leq(s[0], s[j]);
      }
    }
  }

  lemma {:induction false} SortSorts<T(!new)>(s: seq<T>, leq: Order<T>)
    requires Total(leq)
    ensures Sorted(Sort(s, leq), leq)
  {
    if s != [] {
      SortSorts(s[1..], leq);
      InsertSorts(s[0], Sort(s[1..], leq), leq);
    }
  }

  ghost predicate Separates<T(!new)>(leq: Order<T>, s: seq<T>) {
    forall a, b :: a in s && b in s && leq(a, b) && leq(b, a) ==> a == b
  }

  lemma HeadsAgree<T(!new)>(s: seq<T>, t: seq<T>, leq: Order<T>)
    requires Sorted(s, leq) && Sorted(t, leq) && multiset(s) == multiset(t) && Total(leq) && Separates(leq, s)
    requires s != [] && t != []
    ensures s[0] == t[0]
  {
    assert s[0] in multiset(s) && t[0] in multiset(t);
    assert s[0] in t && t[0] in s;
    SmallestFirst(s, t[0], leq);
    SmallestFirst(t, s[0], leq);
  }

  lemma TailBag<T>(s: seq<T>)
    requires s != []
    ensures multiset(s[1..]) == multiset(s) - multiset{s[0]}
  {
    assert s == [s[0]] + s[1..];
  }

  lemma TailFits<T(!new)>(s: seq<T>, leq: Order<T>)
    requires s != [] && Sorted(s, leq) && Separates(leq, s)
    ensures Sorted(s[1..], leq) && Separates(leq, s[1..]) && s == [s[0]] + s[1..]
  {
  }

  lemma TailSorted<T(!new)>(s: seq<T>, leq: Order<T>)
    requires s != [] && Sorted(s, leq)
    ensures Sorted(s[1..], leq) && s == [s[0]] + s[1..]
  {
  }

  lemma {:induction false} SortedIsCanonical<T(!new)>(s: seq<T>, t: seq<T>, leq: Order<T>)
    requires Sorted(s, leq) && Sorted(t, leq) && multiset(s) == multiset(t) && Total(leq) && Separates(leq, s)
    ensures s == t
    decreases |s|
  {
    hide Sorted, Separates, Total;
    assert |s| == |multiset(s)| == |multiset(t)| == |t|;
    if s != [] {
      HeadsAgree(s, t, leq);
      TailBag(s);
      TailBag(t);
      TailFits(s, leq);
      TailSorted(t, leq);
      SortedIsCanonical(s[1..], t[1..], leq);
    }
  }

  lemma SmallestFirst<T(!new)>(s: seq<T>, x: T, leq: Order<T>)
    requires Sorted(s, leq) && Total(leq) && x in s
    ensures leq(s[0], x)
  {
    var i :| 0 <= i < |s| && s[i] == x;
  }

  /** Sorting by an order that keeps apart the elements at hand forgets exactly the arrangement. */
  lemma SortCanonical<T(!new)>(s: seq<T>, t: seq<T>, leq: Order<T>)
    requires Total(leq) && Separates(leq, s)
    ensures Sort(s, leq) == Sort(t, leq) <==> multiset(s) == multiset(t)
  {
    SortKeepsBag(s, leq);
    SortKeepsBag(t, leq);
    if multiset(s) == multiset(t) {
      SortSorts(s, leq);
      SortSorts(t, leq);
      forall a | a in Sort(s, leq)
        ensures a in s
      {
        assert a in multiset(Sort(s, leq));
      }
      SortedIsCanonical(Sort(s, leq), Sort(t, leq), leq);
    }
  }

  // ----- strings inside a group: code-unit order

  predicate LexLeq(a: Text, b: Text)
    decreases |a|
  {
    a == [] || (b != [] && (a[0] < b[0] || (a[0] == b[0] && LexLeq(a[1..], b[1..]))))
  }

  lemma {:induction false} LexTotal(a: Text, b: Text)
    ensures LexLeq(a, b) || LexLeq(b, a)
    ensures LexLeq(a, b) && LexLeq(b, a) ==> a == b
    decreases |a|
  {
    if a != [] && b != [] {
      LexTotal(a[1..], b[1..]);
      assert a == [a[0]] + a[1..] && b == [b[0]] + b[1..];
    }
  }

  lemma {:induction false} LexTransitive(a: Text, b: Text, c: Text)
    requires LexLeq(a, b) && LexLeq(b, c)
    ensures LexLeq(a, c)
    decreases |a|
  {
    if a != [] && a[0] == b[0] && b[0] == c[0] {
      LexTransitive(a[1..], b[1..], c[1..]);
    }
  }

  /** The default order of strings: a prefix first, else by the first code unit that differs. */
  lemma {:induction false} LexExactly(a: Text, b: Text)
    ensures LexLeq(a, b)
            <==> a <= b || exists k :: 0 <= k < |a| && k < |b| && a[..k] == b[..k] && a[k] < b[k]
    decreases |a|
  {
    if a != [] && b != [] {
      if a[0] == b[0] {
        LexExactly(a[1..], b[1..]);
        SameHead(a, b);
      } else if a[0] < b[0] {
        assert a[..0] == b[..0];
      }
    }
  }

  lemma SameHead(a: Text, b: Text)
    requires a != [] && b != [] && a[0] == b[0]
    ensures a <= b <==> a[1..] <= b[1..]
    ensures (exists k :: 0 <= k < |a| && k < |b| && a[..k] == b[..k] && a[k] < b[k])
            <==> exists k :: 0 <= k < |a[1..]| && k < |b[1..]| && a[1..][..k] == b[1..][..k] && a[1..][k] < b[1..][k]
  {
    assert a == [a[0]] + a[1..] && b == [b[0]] + b[1..];
    if k :| 0 <= k < |a| && k < |b| && a[..k] == b[..k] && a[k] < b[k] {
      assert k > 0;
      assert a[1..][..k - 1] == a[..k][1..] && b[1..][..k - 1] == b[..k][1..];
      assert a[1..][k - 1] < b[1..][k - 1];
    }
    if k :| 0 <= k < |a[1..]| && k < |b[1..]| && a[1..][..k] == b[1..][..k] && a[1..][k] < b[1..][k] {
      assert a[..k + 1] == [a[0]] + a[1..][..k] && b[..k + 1] == [b[0]] + b[1..][..k];
      assert a[k + 1] < b[k + 1];
    }
  }

  lemma LexIsOrder()
    ensures Total(LexLeq)
  {
    forall a, b
      ensures LexLeq(a, b) || LexLeq(b, a)
    {
      LexTotal(a, b);
    }
    forall a, b, c | LexLeq(a, b) && LexLeq(b, c)
      ensures LexLeq(a, c)
    {
      LexTransitive(a, b, c);
    }
  }

  lemma LexSeparates(s: seq<Text>)
    ensures Separates(LexLeq, s)
  {
    forall a, b | a in s && b in s && LexLeq(a, b) && LexLeq(b, a)
      ensures a == b
    {
      LexTotal(a, b);
    }
  }

  // ----- the unordered key

  type Group = seq<Text>

  /** A list of lists of strings, and the strings in it. */
  function Strings(items: seq<Value>): Option<Group> {
    if items == [] then Some([])
    else if !items[0].Str? then None
    else
      var rest := Strings(items[1..]);
      if rest.None? then None else Some([items[0].s] + rest.value)
  }

  function Groups(items: seq<Value>): Option<seq<Group>> {
    if items == [] then Some([])
    else if !items[0].List? || Strings(items[0].items).None? then None
    else
      var rest := Groups(items[1..]);
      if rest.None? then None else Some([Strings(items[0].items).value] + rest.value)
  }

  function GroupsOf(v: Value): Option<seq<Group>> {
    if v.List? then Groups(v.items) else None
  }

  function GroupValue(g: Group): Value {
    List(seq(|g|, i requires 0 <= i < |g| => Str(g[i])))
  }

  function GroupsValue(gs: seq<Group>): Value {
    List(seq(|gs|, i requires 0 <= i < |gs| => GroupValue(gs[i])))
  }

  function Normalized(gs: seq<Group>): seq<Group> {
    if gs == [] then [] else [Sort(gs[0], LexLeq)] + Normalized(gs[1..])
  }

  lemma GroupsValid(gs: seq<Group>)
    ensures IsJudgeValue(GroupsValue(gs), 0)
    ensures forall g :: IsJudgeValue(GroupValue(g), 0)
  {
  }

  function GroupKey(g: Group): Text {
    GroupsValid([g]);
    ExactKey(GroupValue(g))
  }

  /** localeCompare on serialized groups, an arbitrary comparison of texts. */
  type Locale = (Text, Text) -> int

  function ByLocale(compare: Locale): Order<Group> {
    (a: Group, b: Group) => compare(GroupKey(a), GroupKey(b)) <= 0
  }

  function Arranged(gs: seq<Group>, compare: Locale): seq<Group> {
    Sort(Normalized(gs), ByLocale(compare))
  }

  function UnorderedKey(v: Value, compare: Locale): Option<Text> {
    var gs := GroupsOf(v);
    if gs.None? then None
    else
      GroupsValid(Arranged(gs.value, compare));
      Some(ExactKey(GroupsValue(Arranged(gs.value, compare))))
  }

  // ----- what it decides

  /** The answer as a multiset of multisets of strings. */
  function Grouping(gs: seq<Group>): multiset<multiset<Text>> {
    if gs == [] then multiset{} else multiset{multiset(gs[0])} + Grouping(gs[1..])
  }

  lemma SameGroupValue(g: Group, h: Group)
    ensures GroupValue(g) == GroupValue(h) ==> g == h
  {
    if GroupValue(g) == GroupValue(h) {
      var a, b := GroupValue(g).items, GroupValue(h).items;
      assert |g| == |a| == |b| == |h|;
      forall i | 0 <= i < |g|
        ensures g[i] == h[i]
      {
        assert a[i] == Str(g[i]) && b[i] == Str(h[i]);
      }
    }
  }

  lemma SameGroupsValue(gs: seq<Group>, hs: seq<Group>)
    ensures GroupsValue(gs) == GroupsValue(hs) ==> gs == hs
  {
    if GroupsValue(gs) == GroupsValue(hs) {
      var a, b := GroupsValue(gs).items, GroupsValue(hs).items;
      assert |gs| == |a| == |b| == |hs|;
      forall i | 0 <= i < |gs|
        ensures gs[i] == hs[i]
      {
        assert a[i] == GroupValue(gs[i]) && b[i] == GroupValue(hs[i]);
        SameGroupValue(gs[i], hs[i]);
      }
    }
  }

  /** Keys are injective in the arrangement they serialize. */
  lemma KeyNamesArrangement(v: Value, w: Value, compare: Locale)
    requires GroupsOf(v).Some? && GroupsOf(w).Some?
    ensures UnorderedKey(v, compare) == UnorderedKey(w, compare)
            <==> Arranged(GroupsOf(v).value, compare) == Arranged(GroupsOf(w).value, compare)
  {
    var a, b := Arranged(GroupsOf(v).value, compare), Arranged(GroupsOf(w).value, compare);
    GroupsValid(a);
    GroupsValid(b);
    ExactKeysDecideEquality(GroupsValue(a), GroupsValue(b));
    SameGroupsValue(a, b);
  }

  /** A group's multiset and its sorted form determine each other. */
  lemma SortedGroupCanonical(g: Group, h: Group)
    ensures Sort(g, LexLeq) == Sort(h, LexLeq) <==> multiset(g) == multiset(h)
  {
    LexIsOrder();
    LexSeparates(g);
    SortCanonical(g, h, LexLeq);
  }

  function Count(gs: seq<Group>, bag: multiset<Text>): nat {
    if gs == [] then 0 else (if multiset(gs[0]) == bag then 1 else 0) + Count(gs[1..], bag)
  }

  lemma {:induction false} GroupingCounts(gs: seq<Group>, bag: multiset<Text>)
    ensures Grouping(gs)[bag] == Count(gs, bag)
  {
    if gs != [] {
      GroupingCounts(gs[1..], bag);
    }
  }

  lemma {:induction false} NormalizedCounts(gs: seq<Group>, g: Group)
    ensures multiset(Normalized(gs))[Sort(g, LexLeq)] == Count(gs, multiset(g))
  {
    if gs != [] {
      NormalizedCounts(gs[1..], g);
      SortedGroupCanonical(gs[0], g);
      assert multiset(Normalized(gs)) == multiset{Sort(gs[0], LexLeq)} + multiset(Normalized(gs[1..]));
    }
  }

  lemma {:induction false} NormalizedMember(gs: seq<Group>, n: Group)
    requires n in Normalized(gs)
    ensures exists g :: g in gs && n == Sort(g, LexLeq)
  {
    if n == Normalized(gs)[0] {
      assert gs[0] in gs;
    } else {
      assert n in Normalized(gs[1..]);
      NormalizedMember(gs[1..], n);
    }
  }

  lemma {:induction false} GroupingMember(gs: seq<Group>, bag: multiset<Text>)
    requires bag in Grouping(gs)
    ensures exists g :: g in gs && bag == multiset(g)
  {
    if bag == multiset(gs[0]) {
      assert gs[0] in gs;
    } else {
      assert bag in Grouping(gs[1..]);
      GroupingMember(gs[1..], bag);
      var g :| g in gs[1..] && bag == multiset(g);
      assert g in gs;
    }
  }

  lemma BagsEqual<T>(a: multiset<T>, b: multiset<T>)
    requires forall x :: x in a ==> b[x] == a[x]
    requires forall x :: x in b ==> a[x] == b[x]
    ensures a == b
  {
    forall x
      ensures a[x] == b[x]
    {
      if x !in a && x !in b {
        assert a[x] == 0 == b[x];
      }
    }
  }

  /** Normalizing each group loses exactly the order inside it. */
  lemma NormalizedGroupings(gs: seq<Group>, hs: seq<Group>)
    ensures multiset(Normalized(gs)) == multiset(Normalized(hs)) <==> Grouping(gs) == Grouping(hs)
  {
    if Grouping(gs) == Grouping(hs) {
      NormalizedFrom(gs, hs);
      NormalizedFrom(hs, gs);
      BagsEqual(multiset(Normalized(gs)), multiset(Normalized(hs)));
    }
    if multiset(Normalized(gs)) == multiset(Normalized(hs)) {
      GroupingFrom(gs, hs);
      GroupingFrom(hs, gs);
      BagsEqual(Grouping(gs), Grouping(hs));
    }
  }

  lemma NormalizedFrom(gs: seq<Group>, hs: seq<Group>)
    requires Grouping(gs) == Grouping(hs)
    ensures forall n :: n in multiset(Normalized(gs)) ==> multiset(Normalized(hs))[n] == multiset(Normalized(gs))[n]
  {
    forall n | n in multiset(Normalized(gs))
      ensures multiset(Normalized(hs))[n] == multiset(Normalized(gs))[n]
    {
      NormalizedMember(gs, n);
      var g :| g in gs && n == Sort(g, LexLeq);
      NormalizedCounts(gs, g);
      NormalizedCounts(hs, g);
      GroupingCounts(gs, multiset(g));
      GroupingCounts(hs, multiset(g));
    }
  }

  lemma GroupingFrom(gs: seq<Group>, hs: seq<Group>)
    requires multiset(Normalized(gs)) == multiset(Normalized(hs))
    ensures forall bag :: bag in Grouping(gs) ==> Grouping(hs)[bag] == Grouping(gs)[bag]
  {
    forall bag | bag in Grouping(gs)
      ensures Grouping(hs)[bag] == Grouping(gs)[bag]
    {
      GroupingMember(gs, bag);
      var g :| g in gs && bag == multiset(g);
      NormalizedCounts(gs, g);
      NormalizedCounts(hs, g);
      GroupingCounts(gs, bag);
      GroupingCounts(hs, bag);
    }
  }

  /** Equal keys always mean equal groupings, whatever the locale does. */
  lemma EqualKeysEqualGroupings(v: Value, w: Value, compare: Locale)
    requires UnorderedKey(v, compare).Some? && UnorderedKey(v, compare) == UnorderedKey(w, compare)
    ensures GroupsOf(v).Some? && GroupsOf(w).Some?
    ensures Grouping(GroupsOf(v).value) == Grouping(GroupsOf(w).value)
  {
    hide Grouping;
    var gs, hs := GroupsOf(v).value, GroupsOf(w).value;
    KeyNamesArrangement(v, w, compare);
    SortKeepsBag(Normalized(gs), ByLocale(compare));
    SortKeepsBag(Normalized(hs), ByLocale(compare));
    NormalizedGroupings(gs, hs);
  }

  /** The locale is a consistent order that keeps apart the groups of this answer. */
  ghost predicate Distinguishes(compare: Locale, gs: seq<Group>) {
    Total(ByLocale(compare)) && Separates(ByLocale(compare), Normalized(gs))
  }

  /** For such a locale the key decides equality of multisets of multisets. */
  lemma KeysDecideGroupings(v: Value, w: Value, compare: Locale)
    requires GroupsOf(v).Some? && GroupsOf(w).Some? && Distinguishes(compare, GroupsOf(v).value)
    ensures UnorderedKey(v, compare) == UnorderedKey(w, compare)
            <==> Grouping(GroupsOf(v).value) == Grouping(GroupsOf(w).value)
  {
    hide Grouping, UnorderedKey;
    var gs, hs := GroupsOf(v).value, GroupsOf(w).value;
    KeyNamesArrangement(v, w, compare);
    NormalizedGroupings(gs, hs);
    SortCanonical(Normalized(gs), Normalized(hs), ByLocale(compare));
  }

  lemma PairGrouping(g: Group, h: Group)
    ensures Grouping([g, h]) == Grouping([h, g])
  {
    assert [g, h][1..] == [h] && [h, g][1..] == [g] && [h][1..] == [] && [g][1..] == [];
    assert Grouping([h]) == multiset{multiset(h)} && Grouping([g]) == multiset{multiset(g)};
  }

  lemma StringsBack(g: Group)
    ensures Strings(GroupValue(g).items) == Some(g)
    decreases |g|
  {
    var items := GroupValue(g).items;
    if g == [] {
      assert items == [];
    } else {
      StringsBack(g[1..]);
      assert items[0] == Str(g[0]) && items[1..] == GroupValue(g[1..]).items;
      assert [g[0]] + g[1..] == g;
    }
  }

  lemma PairGroups(g: Group, h: Group)
    ensures GroupsOf(GroupsValue([g, h])) == Some([g, h])
  {
    var items := GroupsValue([g, h]).items;
    StringsBack(g);
    StringsBack(h);
    assert items == [GroupValue(g), GroupValue(h)] && items[1..] == [GroupValue(h)] && items[1..][1..] == [];
    assert Groups([]) == Some([]) && [h] + [] == [h] && [g] + [h] == [g, h];
    assert Groups([GroupValue(h)]) == Some([h]);
  }

  predicate SortedGroup(g: Group) {
    Sort(g, LexLeq) == g
  }

  predicate Tied(compare: Locale, g: Group, h: Group) {
    compare(GroupKey(g), GroupKey(h)) <= 0 && compare(GroupKey(h), GroupKey(g)) <= 0
  }

  /** When the locale ties two different sorted groups, swapping them changes the key but not the grouping. */
  lemma TiedGroupsMistaken(g: Group, h: Group, compare: Locale)
    requires g != h && SortedGroup(g) && SortedGroup(h) && Tied(compare, g, h)
    ensures
      var v, w := GroupsValue([g, h]), GroupsValue([h, g]);
      && GroupsOf(v) == Some([g, h]) && GroupsOf(w) == Some([h, g])
      && Grouping([g, h]) == Grouping([h, g])
      && UnorderedKey(v, compare) != UnorderedKey(w, compare)
  {
    PairGroups(g, h);
    PairGroups(h, g);
    PairGrouping(g, h);
    TiedPairStays(g, h, compare);
    TiedPairStays(h, g, compare);
    KeyNamesArrangement(GroupsValue([g, h]), GroupsValue([h, g]), compare);
  }

  /** The letter A with a ring above, as one code unit and as a letter with a combining mark. */
  const COMPOSED: Group := [[0xc5]]
  const DECOMPOSED: Group := [[0x41, 0x30a]]

  /** localeCompare must tie canonically equivalent strings (section 22.1.3.12 of ECMA-262, 2024), so every locale order
      mistakes these two groups when they are swapped. */
  lemma EquivalentGroupsMistaken(compare: Locale)
    requires compare(GroupKey(COMPOSED), GroupKey(DECOMPOSED)) == 0
    requires compare(GroupKey(DECOMPOSED), GroupKey(COMPOSED)) == 0
    ensures
      var v, w := GroupsValue([COMPOSED, DECOMPOSED]), GroupsValue([DECOMPOSED, COMPOSED]);
      && GroupsOf(v) == Some([COMPOSED, DECOMPOSED]) && GroupsOf(w) == Some([DECOMPOSED, COMPOSED])
      && Grouping([COMPOSED, DECOMPOSED]) == Grouping([DECOMPOSED, COMPOSED])
      && UnorderedKey(v, compare) != UnorderedKey(w, compare)
  {
    SingletonSorted(COMPOSED);
    SingletonSorted(DECOMPOSED);
    assert COMPOSED[0] != DECOMPOSED[0];
    TiedGroupsMistaken(COMPOSED, DECOMPOSED, compare);
  }

  lemma SingletonSorted(g: Group)
    requires |g| == 1
    ensures SortedGroup(g)
  {
    assert g[1..] == [];
    assert Sort(g[1..], LexLeq) == [];
  }

  ghost predicate Decides(compare: Locale, v: Value, w: Value) {
    GroupsOf(v).Some? && GroupsOf(w).Some? ==>
      (UnorderedKey(v, compare) == UnorderedKey(w, compare)
       <==> Grouping(GroupsOf(v).value) == Grouping(GroupsOf(w).value))
  }

  /** The exact condition: under a consistent locale order the key decides equality of groupings for all answers if and
      only if the order never ties two different sorted groups. */
  lemma KeyIsExactIffLocaleSeparates(compare: Locale)
    requires Total(ByLocale(compare))
    ensures (forall v, w :: Decides(compare, v, w))
            <==> (forall g, h :: SortedGroup(g) && SortedGroup(h) && Tied(compare, g, h) ==> g == h)
  {
    if forall g, h :: SortedGroup(g) && SortedGroup(h) && Tied(compare, g, h) ==> g == h {
      forall v, w
        ensures Decides(compare, v, w)
      {
        if GroupsOf(v).Some? && GroupsOf(w).Some? {
          NormalizedSeparated(compare, GroupsOf(v).value);
          KeysDecideGroupings(v, w, compare);
        }
      }
    } else {
      var g, h :| SortedGroup(g) && SortedGroup(h) && Tied(compare, g, h) && g != h;
      TiedGroupsMistaken(g, h, compare);
      assert !Decides(compare, GroupsValue([g, h]), GroupsValue([h, g]));
    }
  }

  lemma NormalizedSeparated(compare: Locale, gs: seq<Group>)
    requires forall g, h :: SortedGroup(g) && SortedGroup(h) && Tied(compare, g, h) ==> g == h
    ensures Separates(ByLocale(compare), Normalized(gs))
  {
    hide Normalized, Sort, SortedGroup, GroupKey;
    forall a, b | a in Normalized(gs) && b in Normalized(gs) && ByLocale(compare)(a, b) && ByLocale(compare)(b, a)
      ensures a == b
    {
      NormalizedIsSorted(gs, a);
      NormalizedIsSorted(gs, b);
    }
  }

  lemma NormalizedIsSorted(gs: seq<Group>, n: Group)
    requires n in Normalized(gs)
    ensures SortedGroup(n)
  {
    NormalizedMember(gs, n);
    var g :| g in gs && n == Sort(g, LexLeq);
    SortKeepsBag(g, LexLeq);
    SortedGroupCanonical(n, g);
  }

  lemma TiedPairStays(g: Group, h: Group, compare: Locale)
    requires Sort(g, LexLeq) == g && Sort(h, LexLeq) == h && compare(GroupKey(g), GroupKey(h)) <= 0
    ensures Arranged([g, h], compare) == [g, h]
  {
    assert [g, h][1..] == [h] && [h][1..] == [];
    assert Normalized([h]) == [h];
    assert Normalized([g, h]) == [g, h];
    assert Sort([h], ByLocale(compare)) == [h];
  }

  // ----- the comparison

  datatype Comparator = Exact | UnorderedStringGroups

  predicate CompareJudgeOutput(comparator: Comparator, actual: Value, expected: Value, compare: Locale)
    requires IsJudgeValue(expected, 0)
  {
    IsJudgeValue(actual, 0)
    && match comparator
       case Exact => ExactKey(actual) == ExactKey(expected)
       case UnorderedStringGroups =>
         var key := UnorderedKey(actual, compare);
         key.Some? && key == UnorderedKey(expected, compare)
  }

  lemma ExactComparison(actual: Value, expected: Value, compare: Locale)
    requires IsJudgeValue(expected, 0)
    ensures CompareJudgeOutput(Exact, actual, expected, compare) <==> actual == expected
  {
    if IsJudgeValue(actual, 0) {
      ExactKeysDecideEquality(actual, expected);
    }
  }

  /** An accepted answer always has the expected grouping; the expected grouping, in any arrangement, is always
      accepted if the locale separates the actual groups. */
  lemma UnorderedComparison(actual: Value, expected: Value, compare: Locale)
    requires IsJudgeValue(expected, 0)
    ensures
      CompareJudgeOutput(UnorderedStringGroups, actual, expected, compare) ==>
        GroupsOf(actual).Some? && GroupsOf(expected).Some?
        && Grouping(GroupsOf(actual).value) == Grouping(GroupsOf(expected).value)
    ensures
      IsJudgeValue(actual, 0) && GroupsOf(actual).Some? && GroupsOf(expected).Some?
      && Distinguishes(compare, GroupsOf(actual).value)
      && Grouping(GroupsOf(actual).value) == Grouping(GroupsOf(expected).value) ==>
        CompareJudgeOutput(UnorderedStringGroups, actual, expected, compare)
  {
    if IsJudgeValue(actual, 0) && GroupsOf(actual).Some? && GroupsOf(expected).Some? {
      if UnorderedKey(actual, compare) == UnorderedKey(expected, compare) {
        EqualKeysEqualGroupings(actual, expected, compare);
      }
      if Distinguishes(compare, GroupsOf(actual).value) {
        KeysDecideGroupings(actual, expected, compare);
      }
    }
  }

  // ----- the loop that builds the key

  /** unorderedStringGroupsKey: sorted copies of the groups are pushed one by one, then sorted among themselves. */
  method UnorderedStringGroupsKey(v: Value, compare: Locale) returns (key: Option<Text>)
    ensures key == UnorderedKey(v, compare)
  {
    if !v.List? {
      return None;
    }
    var normalized: seq<Group> := [];
    ghost var gs: seq<Group> := [];
    assert v.items[..0] == [];
    for i := 0 to |v.items|
      invariant Groups(v.items[..i]) == Some(gs) && normalized == Normalized(gs)
    {
      var group := v.items[i];
      assert v.items[..i + 1] == v.items[..i] + [group];
      GroupsAppend(v.items[..i], group);
      if !group.List? || Strings(group.items).None? {
        PrefixGroups(v.items, i + 1);
        return None;
      }
      var strings := Strings(group.items).value;
      NormalizedAppend(gs, strings);
      normalized := normalized + [Sort(strings, LexLeq)];
      gs := gs + [strings];
    }
    assert v.items[..|v.items|] == v.items;
    normalized := Sort(normalized, ByLocale(compare));
    GroupsValid(normalized);
    key := Some(ExactKey(GroupsValue(normalized)));
  }

  lemma {:induction false} GroupsAppend(items: seq<Value>, group: Value)
    requires Groups(items).Some?
    ensures
      Groups(items + [group]) ==
        if !group.List? || Strings(group.items).None? then None
        else Some(Groups(items).value + [Strings(group.items).value])
  {
    if items == [] {
      assert items + [group] == [group] && [group][1..] == [] && Groups(items) == Some([]);
      if group.List? && Strings(group.items).Some? {
        var c := Strings(group.items).value;
        assert [c] + [] == [c] == [] + [c];
      }
    } else {
      assert (items + [group])[1..] == items[1..] + [group] && (items + [group])[0] == items[0];
      GroupsAppend(items[1..], group);
      if group.List? && Strings(group.items).Some? {
        var a, b, c := Strings(items[0].items).value, Groups(items[1..]).value, Strings(group.items).value;
        assert [a] + (b + [c]) == [a] + b + [c];
      }
    }
  }

  lemma {:induction false} PrefixGroups(items: seq<Value>, k: nat)
    requires k <= |items| && Groups(items[..k]).None?
    ensures Groups(items).None?
  {
    if k > 0 {
      assert items[..k][1..] == items[1..][..k - 1];
      if Groups(items[..k][1..]).None? {
        PrefixGroups(items[1..], k - 1);
      }
    }
  }

  lemma {:induction false} NormalizedAppend(gs: seq<Group>, g: Group)
    ensures Normalized(gs + [g]) == Normalized(gs) + [Sort(g, LexLeq)]
  {
    if gs == [] {
      assert [] + [g] == [g] && [g][1..] == [];
    } else {
      assert (gs + [g])[1..] == gs[1..] + [g];
      NormalizedAppend(gs[1..], g);
    }
  }
}
