/** The datapath classifier: one subtable for each mask, searched in the order of their past hits. */
module Dpcls {
  import opened Base
  import opened FlowModel

  /** A rule of the classifier: the flow it stands for and its match. */
  datatype Rule = Rule(flow: nat, match_: Match)

  datatype Subtable = Subtable(mask: Fields, rules: set<Rule>, hitCnt: nat)

  ghost function AllRules(subtables: seq<Subtable>): set<Rule> {
    set s, r | s in subtables && r in s.rules :: r
  }

  ghost predicate DisjointRules(rules: set<Rule>) {
    forall a, b :: a in rules && b in rules && a != b ==> RulesApart(a.match_, b.match_)
  }

  /** What a linear scan of the rules finds for a key: the rule that matches it, if there is one. */
  ghost predicate IsScanResult(rules: set<Rule>, k: Key, r: Option<Rule>) {
    match r
    case Some(rule) => rule in rules && RuleMatches(rule.match_, k)
    case None => forall rule <- rules :: !RuleMatches(rule.match_, k)
  }

  /** Among disjoint rules the scan has one result only. */
  lemma ScanUnique(rules: set<Rule>, k: Key, a: Option<Rule>, b: Option<Rule>)
    requires DisjointRules(rules) && IsScanResult(rules, k, a) && IsScanResult(rules, k, b)
    ensures a == b
  {
  }

  ghost predicate ValidSubtables(subtables: seq<Subtable>) {
    && (forall i, j :: 0 <= i < j < |subtables| ==> subtables[i].mask != subtables[j].mask)
    && (forall s <- subtables :: s.rules != {} && forall r <- s.rules :: r.match_.mask == s.mask)
  }

  /** The 1-based position of the subtable that holds the rule found for a key, 0 if none was found. */
  ghost function PositionOf(subtables: seq<Subtable>, r: Option<Rule>): nat {
    if r.None? || subtables == [] then 0
    else if r.value in subtables[|subtables| - 1].rules then |subtables|
    else PositionOf(subtables[..|subtables| - 1], r)
  }

  ghost function SumPositions(subtables: seq<Subtable>, rules: seq<Option<Rule>>): nat {
    if rules == [] then 0
    else SumPositions(subtables, rules[..|rules| - 1]) + PositionOf(subtables, rules[|rules| - 1])
  }

  /** How many of the rules found are in subtable `pos`. */
  ghost function HitsAt(subtables: seq<Subtable>, rules: seq<Option<Rule>>, pos: nat): nat {
    if rules == [] then 0
    else
      HitsAt(subtables, rules[..|rules| - 1], pos) +
      if PositionOf(subtables, rules[|rules| - 1]) == pos + 1 then 1 else 0
  }

  /** The subtables are those of `start`, with every hit counted. */
  ghost predicate HitsCounted(start: seq<Subtable>, subtables: seq<Subtable>, rules: seq<Option<Rule>>) {
    |start| == |subtables| && forall j :: 0 <= j < |start| ==>
      subtables[j] == start[j].(hitCnt := start[j].hitCnt + HitsAt(start, rules, j))
  }

  ghost predicate HasMatch(rules: set<Rule>, k: Key) {
    exists r <- rules :: RuleMatches(r.match_, k)
  }

  /** What a subtable lookup does to the results: it finds a matching rule for each key of `todo` that has one, and
      leaves the other results alone. */
  ghost predicate FoundBy(rules: set<Rule>, todo: set<nat>, keys: seq<Key>, before: seq<Option<Rule>>,
                          after: seq<Option<Rule>>, found: set<nat>)
    requires |before| == |after| == |keys|
  {
    && found <= todo
    && forall i :: 0 <= i < |keys| ==>
         (i in found <==> i in todo && HasMatch(rules, keys[i]))
         && (if i in found then after[i].Some? && after[i].value in rules && RuleMatches(after[i].value.match_, keys[i])
             else after[i] == before[i])
  }

  /** The same subtables but for their hit counts. */
  ghost predicate SameTables(a: seq<Subtable>, b: seq<Subtable>) {
    |a| == |b| && forall i :: 0 <= i < |a| ==> b[i] == a[i].(hitCnt := b[i].hitCnt)
  }

  function UpTo(n: nat): (r: set<nat>)
    ensures forall i :: i in r <==> 0 <= i < n
  {
    if n == 0 then {} else UpTo(n - 1) + {n - 1}
  }

  class Dpcls {
    var subtables: seq<Subtable>

    ghost predicate Valid()
      reads this
    {
      ValidSubtables(subtables)
    }

    ghost function Rules(): set<Rule>
      reads this
    {
      AllRules(subtables)
    }

    constructor ()
      ensures Valid() && Rules() == {}
    {
      subtables := [];
    }

    /** dpcls_find_subtable(): the subtable of that mask, created at the end of the vector if it is missing. */
    method FindSubtable(mask: Fields) returns (i: nat)
      requires forall a, b :: 0 <= a < b < |subtables| ==> subtables[a].mask != subtables[b].mask
      modifies this
      ensures i < |subtables| && subtables[i].mask == mask
      ensures subtables == old(subtables)
              || (i == |old(subtables)| && subtables == old(subtables) + [Subtable(mask, {}, 0)])
      ensures (exists j :: 0 <= j < |old(subtables)| && old(subtables)[j].mask == mask) ==> subtables == old(subtables)
      ensures forall a, b :: 0 <= a < b < |subtables| ==> subtables[a].mask != subtables[b].mask
    {
      for k := 0 to |subtables|
        invariant forall j :: 0 <= j < k ==> subtables[j].mask != mask
        invariant subtables == old(subtables)
      {
        if subtables[k].mask == mask {
          return k;
        }
      }
      i := |subtables|;
      subtables := subtables + [Subtable(mask, {}, 0)];
    }

    /** dpcls_insert(). */
    method Insert(rule: Rule)
      requires Valid()
      modifies this
      ensures Valid() && Rules() == old(Rules()) + {rule}
    {
      var i := FindSubtable(rule.match_.mask);
      ghost var before := subtables;
      var s := subtables[i];
      subtables := subtables[i := s.(rules := s.rules + {rule})];
      InsertedRules(old(subtables), before, i, rule);
    }

    /** dpcls_remove(): a subtable goes away with its last rule. */
    method Remove(rule: Rule)
      requires Valid() && rule in Rules()
      modifies this
      ensures Valid() && Rules() == old(Rules()) - {rule}
    {
      ghost var at := WhereIs(subtables, rule);
      OnlySubtable(subtables, at, rule);
      var i := FindSubtable(rule.match_.mask);
      assert i == at && subtables == old(subtables);
      var s := subtables[i];
      var rest := s.rules - {rule};
      if rest == {} {
        subtables := RemoveAt(subtables, i);
        DroppedRules(old(subtables), i, rule);
      } else {
        subtables := subtables[i := s.(rules := rest)];
        RemovedRules(old(subtables), i, rule);
      }
    }

    /** dpcls_sort_subtable_vector(): orders the subtables by the hits since the last time, the most hit first,
        and starts counting afresh.  No rule moves to another subtable. */
    method Sort() returns (ghost perm: seq<nat>)
      requires Valid()
      modifies this
      ensures Valid() && Rules() == old(Rules())
      ensures Reordered(old(subtables), subtables, perm)
      ensures forall i, j :: 0 <= i < j < |perm| ==> old(subtables)[perm[i]].hitCnt >= old(subtables)[perm[j]].hitCnt
    {
      hide ValidSubtables;
      hide AllRules;
      hide Reordered;
      hide IsPerm;
      var sorted: seq<Subtable> := [];
      perm := [];
      EmptyPerm();
      for n := 0 to |subtables|
        invariant subtables == old(subtables)
        invariant |sorted| == n && IsPerm(perm, n) && |perm| == n && forall i :: 0 <= i < n ==> perm[i] < n
        invariant forall i :: 0 <= i < n ==> sorted[i] == subtables[perm[i]]
        invariant MostHitFirst(sorted)
      {
        hide MostHitFirst;
        hide Covers;
        var i := n;
        while i > 0 && sorted[i - 1].hitCnt < subtables[n].hitCnt
          invariant 0 <= i <= n
          invariant forall k :: i <= k < n ==> sorted[k].hitCnt < subtables[n].hitCnt
        {
          i := i - 1;
        }
        PermInsert(perm, n, i);
        HitsInsert(sorted, i, subtables[n]);
        sorted := InsertAt(sorted, i, subtables[n]);
        perm := InsertAt(perm, i, n);
      }
      var zeroed := Zeroed(sorted);
      ZeroedReorders(subtables, sorted, perm);
      ReorderedRules(subtables, zeroed, perm);
      subtables := zeroed;
    }

    /** The lookup function of a subtable: a matching rule for each key of `todo` for which it has one. */
    method SubtableLookup(s: Subtable, todo: set<nat>, keys: seq<Key>, rules: array<Option<Rule>>)
      returns (found: set<nat>)
      requires rules.Length == |keys| && forall i <- todo :: i < |keys|
      modifies rules
      ensures FoundBy(s.rules, todo, keys, old(rules[..]), rules[..], found)
    {
      found := {};
      var left := todo;
      while left != {}
        invariant left <= todo && found <= todo - left
        invariant forall i :: 0 <= i < |keys| ==>
          (i in found <==> i in todo - left && HasMatch(s.rules, keys[i]))
          && (if i in found then rules[i].Some? && rules[i].value in s.rules
              && RuleMatches(rules[i].value.match_, keys[i])
              else rules[i] == old(rules[i]))
        decreases left
      {
        var i :| i in left;
        left := left - {i};
        var hits := set r | r in s.rules && RuleMatches(r.match_, keys[i]);
        assert HasMatch(s.rules, keys[i]) <==> hits != {} by {
          if r :| r in s.rules && RuleMatches(r.match_, keys[i]) {
            assert r in hits;
          }
        }
        if hits != {} {
          var r :| r in hits;
          rules[i] := Some(r);
          found := found + {i};
        }
      }
    }

    method CountHits(pos: nat, n: nat, ghost start: seq<Subtable>)
      requires pos < |subtables| && SameTables(start, subtables)
      modifies this
      ensures subtables == old(subtables)[pos := old(subtables)[pos].(hitCnt := old(subtables)[pos].hitCnt + n)]
      ensures SameTables(start, subtables)
    {
      subtables := subtables[pos := subtables[pos].(hitCnt := subtables[pos].hitCnt + n)];
    }

    static method Clear(rules: array<Option<Rule>>)
      modifies rules
      ensures forall k :: 0 <= k < rules.Length ==> rules[k] == None
    {
      for i := 0 to rules.Length
        invariant forall k :: 0 <= k < i ==> rules[k] == None
      {
        rules[i] := None;
      }
    }

    /** One turn of the loop of dpcls_lookup(): searches a subtable for the keys that have no rule yet, counts its
        hits, and adds its position once for each. */
    method Search(pos: nat, keys: seq<Key>, rules: array<Option<Rule>>, todo: set<nat>, lookups: nat,
                  ghost start: seq<Subtable>)
      returns (todo': set<nat>, lookups': nat)
      requires SameTables(start, subtables) && ValidSubtables(start) && pos < |subtables|
      requires SearchInv(start, pos, keys, rules[..], todo, lookups) && HitsCounted(start, subtables, rules[..])
      modifies this, rules
      ensures SameTables(start, subtables)
      ensures SearchInv(start, pos + 1, keys, rules[..], todo', lookups') && HitsCounted(start, subtables, rules[..])
    {
      hide HitsAt;
      hide ValidSubtables;
      hide FoundBy;
      hide AllFoundIn;
      hide SumPositions;
      ghost var before := rules[..];
      var found := SubtableLookup(subtables[pos], todo, keys, rules);
      CountHits(pos, |found|, start);
      lookups' := lookups + |found| * (pos + 1);
      FoundStep(start, pos, keys, before, rules[..], todo, found);
      todo' := todo - found;
    }

    /** dpcls_lookup().  `todo` is the bitmap of the keys still without a rule. */
    method Lookup(keys: seq<Key>, rules: array<Option<Rule>>) returns (all: bool, lookups: nat)
      requires Valid() && keys != [] && rules.Length == |keys|
      modifies this, rules
      ensures Valid() && Rules() == old(Rules())
      ensures SameTables(old(subtables), subtables)
      ensures forall i :: 0 <= i < |keys| ==> IsScanResult(Rules(), keys[i], rules[i])
      ensures all <==> forall i :: 0 <= i < |keys| ==> rules[i].Some?
      ensures lookups == SumPositions(old(subtables), rules[..])
      ensures HitsCounted(old(subtables), subtables, rules[..])
    {
      hide HitsCounted;
      hide SearchInv;
      hide AllRules;
      hide IsScanResult;
      hide SumPositions;
      ghost var start := subtables;
      assert SameTables(start, subtables);
      var todo := UpTo(|keys|);
      Clear(rules);
      lookups := 0;
      SearchStart(start, keys, rules[..]);
      NoHits(start, rules[..]);
      assert 0 in todo;
      for pos := 0 to |subtables|
        invariant SameTables(start, subtables) && ValidSubtables(start)
        invariant SearchInv(start, pos, keys, rules[..], todo, lookups) && todo != {}
        invariant HitsCounted(start, subtables, rules[..])
      {
        hide SameTables;
        hide ValidSubtables;
        todo, lookups := Search(pos, keys, rules, todo, lookups, start);
        if todo == {} {
          LookupDone(start, subtables, pos + 1, keys, rules[..], todo, lookups);
          return true, lookups;
        }
      }
      LookupDone(start, subtables, |start|, keys, rules[..], todo, lookups);
      return false, lookups;
    }
  }

  // ---------------------------------------------------------------- insert and remove

  lemma InsertedRules(first: seq<Subtable>, before: seq<Subtable>, i: nat, rule: Rule)
    requires ValidSubtables(first) && i < |before| && before[i].mask == rule.match_.mask
    requires before == first || (i == |first| && before == first + [Subtable(rule.match_.mask, {}, 0)])
    requires forall a, b :: 0 <= a < b < |before| ==> before[a].mask != before[b].mask
    ensures ValidSubtables(before[i := before[i].(rules := before[i].rules + {rule})])
    ensures AllRules(before[i := before[i].(rules := before[i].rules + {rule})]) == AllRules(first) + {rule}
  {
    var s := before[i].(rules := before[i].rules + {rule});
    var after := before[i := s];
    assert after[i] == s;
    forall r
      ensures r in AllRules(after) <==> r in AllRules(first) || r == rule
    {
      if r in AllRules(first) {
        var k :| 0 <= k < |first| && r in first[k].rules;
        assert r in after[k].rules;
      }
    }
    forall t <- after
      ensures t.rules != {} && forall r <- t.rules :: r.match_.mask == t.mask
    {
      if t != s {
        var k :| 0 <= k < |after| && after[k] == t;
        assert k != i && t == before[k];
        if k < |first| {
          assert t == first[k] && t in first;
        }
      }
    }
  }

  ghost function WhereIs(subtables: seq<Subtable>, rule: Rule): (i: nat)
    requires rule in AllRules(subtables)
    ensures i < |subtables| && rule in subtables[i].rules
  {
    var i :| 0 <= i < |subtables| && rule in subtables[i].rules;
    i
  }

  /** A rule is in one subtable only, that of its mask. */
  lemma OnlySubtable(subtables: seq<Subtable>, i: nat, rule: Rule)
    requires ValidSubtables(subtables) && i < |subtables| && rule in subtables[i].rules
    ensures subtables[i].mask == rule.match_.mask
    ensures forall j | 0 <= j < |subtables| ::
              rule in subtables[j].rules || subtables[j].mask == rule.match_.mask ==> j == i
  {
    assert subtables[i] in subtables;
    forall j | 0 <= j < |subtables| && (rule in subtables[j].rules || subtables[j].mask == rule.match_.mask)
      ensures j == i
    {
      assert subtables[j] in subtables;
    }
  }

  lemma RemovedRules(subtables: seq<Subtable>, i: nat, rule: Rule)
    requires ValidSubtables(subtables) && i < |subtables| && rule in subtables[i].rules && subtables[i].rules != {rule}
    ensures var after := subtables[i := subtables[i].(rules := subtables[i].rules - {rule})];
            ValidSubtables(after) && AllRules(after) == AllRules(subtables) - {rule}
  {
    var s := subtables[i].(rules := subtables[i].rules - {rule});
    var after := subtables[i := s];
    assert after[i] == s && subtables[i] in subtables;
    OnlySubtable(subtables, i, rule);
    forall r | r in AllRules(after)
      ensures r in AllRules(subtables) && r != rule
    {
      var k :| 0 <= k < |after| && r in after[k].rules;
      assert r in subtables[k].rules;
    }
    forall r | r in AllRules(subtables) && r != rule
      ensures r in AllRules(after)
    {
      var k :| 0 <= k < |subtables| && r in subtables[k].rules;
      assert r in after[k].rules;
    }
    assert s.rules != {} by {
      var r :| r in subtables[i].rules && r != rule;
      assert r in s.rules;
    }
    forall t <- after
      ensures t == s || t in subtables
    {
    }
  }

  lemma DroppedRules(subtables: seq<Subtable>, i: nat, rule: Rule)
    requires ValidSubtables(subtables) && i < |subtables| && subtables[i].rules == {rule}
    ensures ValidSubtables(RemoveAt(subtables, i)) && AllRules(RemoveAt(subtables, i)) == AllRules(subtables) - {rule}
  {
    var after := RemoveAt(subtables, i);
    assert rule in subtables[i].rules;
    OnlySubtable(subtables, i, rule);
    forall t <- after
      ensures t in subtables && rule !in t.rules
    {
      var k :| 0 <= k < |after| && after[k] == t;
      assert t == subtables[if k < i then k else k + 1];
    }
    forall r | r in AllRules(subtables) && r != rule
      ensures r in AllRules(after)
    {
      KeptRule(subtables, i, r);
    }
  }

  lemma KeptRule(subtables: seq<Subtable>, i: nat, r: Rule)
    requires i < |subtables| && r in AllRules(subtables) && r !in subtables[i].rules
    ensures r in AllRules(RemoveAt(subtables, i))
  {
    var k :| 0 <= k < |subtables| && r in subtables[k].rules;
    assert RemoveAt(subtables, i)[if k < i then k else k - 1] == subtables[k];
  }

  // ---------------------------------------------------------------- sequences

  ghost predicate IsPerm(perm: seq<nat>, n: nat) {
    && |perm| == n && (forall i :: 0 <= i < n ==> perm[i] < n)
    && (forall i, j :: 0 <= i < j < n ==> perm[i] != perm[j])
    && forall k :: 0 <= k < n ==> Covers(perm, k)
  }

  ghost predicate Covers(perm: seq<nat>, k: nat) {
    exists i :: 0 <= i < |perm| && perm[i] == k
  }

  lemma EmptyPerm()
    ensures IsPerm([], 0)
  {
  }

  lemma PermInsert(perm: seq<nat>, n: nat, i: nat)
    requires IsPerm(perm, n) && i <= n
    ensures IsPerm(InsertAt(perm, i, n), n + 1)
  {
    var after := InsertAt(perm, i, n);
    forall k | 0 <= k < n + 1
      ensures Covers(after, k)
    {
      if k < n {
        assert Covers(perm, k);
        var j :| 0 <= j < n && perm[j] == k;
        assert after[if j < i then j else j + 1] == k;
      } else {
        assert after[i] == k;
      }
    }
  }

  predicate MostHitFirst(s: seq<Subtable>) {
    forall i, j :: 0 <= i < j < |s| ==> s[i].hitCnt >= s[j].hitCnt
  }

  lemma HitsInsert(s: seq<Subtable>, i: nat, x: Subtable)
    requires MostHitFirst(s) && i <= |s| && (i > 0 ==> s[i - 1].hitCnt >= x.hitCnt)
    requires forall k :: i <= k < |s| ==> s[k].hitCnt < x.hitCnt
    ensures MostHitFirst(InsertAt(s, i, x))
  {
    var r := InsertAt(s, i, x);
    forall a, b | 0 <= a < b < |r|
      ensures r[a].hitCnt >= r[b].hitCnt
    {
      assert a < i && i > 0 && a != i - 1 ==> s[a].hitCnt >= s[i - 1].hitCnt;
    }
  }

  function Zeroed(s: seq<Subtable>): (r: seq<Subtable>)
    ensures |r| == |s| && forall i :: 0 <= i < |s| ==> r[i] == s[i].(hitCnt := 0)
  {
    if s == [] then [] else [s[0].(hitCnt := 0)] + Zeroed(s[1..])
  }

  /** The same subtables in another order, counting afresh. */
  ghost predicate Reordered(before: seq<Subtable>, after: seq<Subtable>, perm: seq<nat>) {
    && |after| == |before| && IsPerm(perm, |before|)
    && forall i :: 0 <= i < |after| ==> after[i] == before[perm[i]].(hitCnt := 0)
  }

  lemma ZeroedReorders(before: seq<Subtable>, sorted: seq<Subtable>, perm: seq<nat>)
    requires IsPerm(perm, |before|) && |sorted| == |before|
    requires forall i :: 0 <= i < |before| ==> sorted[i] == before[perm[i]]
    ensures Reordered(before, Zeroed(sorted), perm)
  {
  }

  lemma ReorderedRules(before: seq<Subtable>, after: seq<Subtable>, perm: seq<nat>)
    requires ValidSubtables(before) && Reordered(before, after, perm)
    ensures ValidSubtables(after) && AllRules(after) == AllRules(before)
  {
    forall r
      ensures r in AllRules(after) <==> r in AllRules(before)
    {
      if r in AllRules(after) {
        var k :| 0 <= k < |after| && r in after[k].rules;
        assert r in before[perm[k]].rules;
      }
      if r in AllRules(before) {
        var k: nat :| 0 <= k < |before| && r in before[k].rules;
        assert Covers(perm, k);
        var i :| 0 <= i < |perm| && perm[i] == k;
        assert r in after[i].rules;
      }
    }
    forall t <- after
      ensures t.rules != {} && forall r <- t.rules :: r.match_.mask == t.mask
    {
      var k :| 0 <= k < |after| && after[k] == t;
      assert before[perm[k]] in before;
    }
  }

  // ---------------------------------------------------------------- lookup

  ghost function Missed(rules: seq<Option<Rule>>): set<nat> {
    set i | 0 <= i < |rules| && rules[i].None?
  }

  /** What is known of a key once the subtables of `seen` have been searched. */
  ghost predicate FoundIn(seen: seq<Subtable>, k: Key, r: Option<Rule>) {
    match r
    case Some(rule) => rule in AllRules(seen) && RuleMatches(rule.match_, k)
    case None => forall rule <- AllRules(seen) :: !RuleMatches(rule.match_, k)
  }

  ghost predicate AllFoundIn(seen: seq<Subtable>, keys: seq<Key>, rules: seq<Option<Rule>>) {
    |keys| == |rules| && forall i :: 0 <= i < |keys| ==> FoundIn(seen, keys[i], rules[i])
  }

  /** What dpcls_lookup() knows after `pos` subtables. */
  ghost predicate SearchInv(start: seq<Subtable>, pos: nat, keys: seq<Key>, rules: seq<Option<Rule>>, todo: set<nat>,
                            lookups: nat) {
    && |rules| == |keys| && pos <= |start|
    && todo == Missed(rules) && (forall i <- todo :: i < |keys|)
    && AllFoundIn(start[..pos], keys, rules)
    && lookups == SumPositions(start, rules)
  }

  lemma SearchStart(start: seq<Subtable>, keys: seq<Key>, rules: seq<Option<Rule>>)
    requires |keys| == |rules| && forall i :: 0 <= i < |rules| ==> rules[i] == None
    ensures SearchInv(start, 0, keys, rules, UpTo(|keys|), 0)
  {
    NoPositions(start, rules);
    NothingSeen(keys, rules);
    assert start[..0] == [];
  }

  lemma NothingSeen(keys: seq<Key>, rules: seq<Option<Rule>>)
    requires |keys| == |rules| && forall i :: 0 <= i < |rules| ==> rules[i] == None
    ensures AllFoundIn([], keys, rules)
  {
  }

  lemma NoPositions(subtables: seq<Subtable>, rules: seq<Option<Rule>>)
    requires forall i :: 0 <= i < |rules| ==> rules[i] == None
    ensures SumPositions(subtables, rules) == 0 && Missed(rules) == UpTo(|rules|)
  {
    if rules != [] {
      NoPositions(subtables, rules[..|rules| - 1]);
      NoneAtZero(subtables);
    }
  }

  lemma {:induction false} PositionIs(subtables: seq<Subtable>, pos: nat, rule: Rule)
    requires pos < |subtables| && rule in subtables[pos].rules
    requires forall j :: 0 <= j < |subtables| && rule in subtables[j].rules ==> j == pos
    ensures PositionOf(subtables, Some(rule)) == pos + 1
  {
    if pos < |subtables| - 1 {
      PositionIs(subtables[..|subtables| - 1], pos, rule);
    }
  }

  lemma {:induction false} SumStep(subtables: seq<Subtable>, a: seq<Option<Rule>>, b: seq<Option<Rule>>,
                                   found: set<nat>, p: nat)
    requires |a| == |b| && forall i <- found :: i < |a|
    requires forall i :: 0 <= i < |a| ==>
      if i in found then a[i].None? && PositionOf(subtables, b[i]) == p else b[i] == a[i]
    ensures SumPositions(subtables, b) == SumPositions(subtables, a) + |found| * p
  {
    if a == [] {
      assert found == {};
    } else {
      var n := |a| - 1;
      var rest := found - {n};
      hide PositionOf;
      assert a[..n] == a[..|a| - 1] && b[..n] == b[..|b| - 1];
      SumStep(subtables, a[..n], b[..n], rest, p);
      if n in found {
        assert found == rest + {n};
        OneMore(|rest|, p);
      } else {
        assert rest == found;
      }
      NoneAtZero(subtables);
    }
  }

  lemma {:induction false} HitsStep(subtables: seq<Subtable>, a: seq<Option<Rule>>, b: seq<Option<Rule>>,
                                    found: set<nat>, pos: nat, j: nat)
    requires |a| == |b| && forall i <- found :: i < |a|
    requires forall i :: 0 <= i < |a| ==>
      if i in found then a[i].None? && PositionOf(subtables, b[i]) == pos + 1 else b[i] == a[i]
    ensures HitsAt(subtables, b, j) == HitsAt(subtables, a, j) + if j == pos then |found| else 0
  {
    if a == [] {
      assert found == {};
    } else {
      var n := |a| - 1;
      var rest := found - {n};
      NoneAtZero(subtables);
      hide PositionOf;
      HitsStep(subtables, a[..n], b[..n], rest, pos, j);
      if n in found {
        assert found == rest + {n};
      } else {
        assert rest == found;
      }
    }
  }

  lemma {:induction false} NoHits(subtables: seq<Subtable>, rules: seq<Option<Rule>>)
    requires forall i :: 0 <= i < |rules| ==> rules[i] == None
    ensures HitsCounted(subtables, subtables, rules)
  {
    forall j | 0 <= j < |subtables|
      ensures HitsAt(subtables, rules, j) == 0
    {
      NoneHit(subtables, rules, j);
    }
  }

  lemma {:induction false} NoneHit(subtables: seq<Subtable>, rules: seq<Option<Rule>>, j: nat)
    requires forall i :: 0 <= i < |rules| ==> rules[i] == None
    ensures HitsAt(subtables, rules, j) == 0
  {
    NoneAtZero(subtables);
    if rules != [] {
      NoneHit(subtables, rules[..|rules| - 1], j);
    }
  }

  lemma OneMore(n: nat, p: nat)
    ensures (n + 1) * p == n * p + p
  {
  }

  lemma NoneAtZero(subtables: seq<Subtable>)
    ensures PositionOf(subtables, None) == 0
  {
  }

  lemma FoundStep(start: seq<Subtable>, pos: nat, keys: seq<Key>, before: seq<Option<Rule>>, after: seq<Option<Rule>>,
                  todo: set<nat>, found: set<nat>)
    requires ValidSubtables(start) && pos < |start| && |keys| == |before| == |after|
    requires todo == Missed(before)
    requires AllFoundIn(start[..pos], keys, before)
    requires FoundBy(start[pos].rules, todo, keys, before, after, found)
    ensures AllFoundIn(start[..pos + 1], keys, after)
    ensures todo - found == Missed(after)
    ensures SumPositions(start, after) == SumPositions(start, before) + |found| * (pos + 1)
    ensures forall j :: 0 <= j < |start| ==>
              HitsAt(start, after, j) == HitsAt(start, before, j) + if j == pos then |found| else 0
  {
    assert start[..pos + 1] == start[..pos] + [start[pos]];
    assert AllRules(start[..pos + 1]) == AllRules(start[..pos]) + start[pos].rules;
    forall i | 0 <= i < |keys|
      ensures FoundIn(start[..pos + 1], keys[i], after[i])
      ensures if i in found then before[i].None? && PositionOf(start, after[i]) == pos + 1 else after[i] == before[i]
    {
      assert FoundIn(start[..pos], keys[i], before[i]);
      if i in found {
        OnlySubtable(start, pos, after[i].value);
        PositionIs(start, pos, after[i].value);
      }
    }
    SumStep(start, before, after, found, pos + 1);
    forall j | 0 <= j < |start|
      ensures HitsAt(start, after, j) == HitsAt(start, before, j) + if j == pos then |found| else 0
    {
      HitsStep(start, before, after, found, pos, j);
    }
  }

  lemma LookupDone(start: seq<Subtable>, subtables: seq<Subtable>, pos: nat, keys: seq<Key>, rules: seq<Option<Rule>>,
                   todo: set<nat>, lookups: nat)
    requires ValidSubtables(start) && SameTables(start, subtables)
    requires SearchInv(start, pos, keys, rules, todo, lookups) && (todo == {} || pos == |start|)
    ensures ValidSubtables(subtables) && AllRules(subtables) == AllRules(start)
    ensures forall i :: 0 <= i < |keys| ==> IsScanResult(AllRules(start), keys[i], rules[i])
    ensures todo == {} <==> forall i :: 0 <= i < |keys| ==> rules[i].Some?
    ensures lookups == SumPositions(start, rules)
  {
    hide AllRules;
    hide ValidSubtables;
    hide SameTables;
    hide AllFoundIn;
    hide Missed;
    hide IsScanResult;
    hide SumPositions;
    MissedNone(rules);
    ScanDone(start, pos, keys, rules);
    SameTablesSameRules(start, subtables);
  }

  lemma MissedNone(rules: seq<Option<Rule>>)
    ensures Missed(rules) == {} <==> forall i :: 0 <= i < |rules| ==> rules[i].Some?
  {
    if Missed(rules) == {} {
      forall i | 0 <= i < |rules|
        ensures rules[i].Some?
      {
        assert i !in Missed(rules);
      }
    }
  }

  lemma SameTablesSameRules(start: seq<Subtable>, subtables: seq<Subtable>)
    requires ValidSubtables(start) && SameTables(start, subtables)
    ensures ValidSubtables(subtables) && AllRules(subtables) == AllRules(start)
  {
    forall r | r in AllRules(subtables)
      ensures r in AllRules(start)
    {
      var k :| 0 <= k < |subtables| && r in subtables[k].rules;
      assert r in start[k].rules;
    }
    forall r | r in AllRules(start)
      ensures r in AllRules(subtables)
    {
      var k :| 0 <= k < |start| && r in start[k].rules;
      assert r in subtables[k].rules;
    }
    forall t <- subtables
      ensures t.rules != {} && forall r <- t.rules :: r.match_.mask == t.mask
    {
      var k :| 0 <= k < |subtables| && subtables[k] == t;
      assert start[k] in start;
    }
  }

  lemma ScanDone(start: seq<Subtable>, pos: nat, keys: seq<Key>, rules: seq<Option<Rule>>)
    requires pos <= |start| && AllFoundIn(start[..pos], keys, rules) && (Missed(rules) == {} || pos == |start|)
    ensures forall i :: 0 <= i < |keys| ==> IsScanResult(AllRules(start), keys[i], rules[i])
  {
    forall i | 0 <= i < |keys|
      ensures IsScanResult(AllRules(start), keys[i], rules[i])
    {
      assert FoundIn(start[..pos], keys[i], rules[i]);
      if rules[i].None? {
        assert i in Missed(rules);
        assert start[..pos] == start;
      }
    }
  }

  // ---------------------------------------------------------------- what the order does not change

  /** Whatever the order of the subtables, a key gets the same rule: two tables with the same disjoint rules
      answer alike. */
  lemma OrderIrrelevant(a: seq<Subtable>, b: seq<Subtable>, k: Key, ra: Option<Rule>, rb: Option<Rule>)
    requires AllRules(a) == AllRules(b) && DisjointRules(AllRules(a))
    requires IsScanResult(AllRules(a), k, ra) && IsScanResult(AllRules(b), k, rb)
    ensures ra == rb
  {
    ScanUnique(AllRules(a), k, ra, rb);
  }
}
