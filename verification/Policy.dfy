/** Claims to decision: the priority rules of an organization (src/api/enroll.rs). */
module Policy {
  import opened Models
  import opened Lex
  import opened Keys
  import opened Refinement
  import opened Ownership
  import Redb

  type Claims = map<string, Json>

  /** The rule's match, by the type of the claim. */
  predicate Matches(rule: PolicyRule, claims: Claims)
  {
    rule.claimKey in claims && match claims[rule.claimKey]
    case Str(s) => s == rule.claimValue
    case Bool(b) => (rule.claimValue == "true" && b) || (rule.claimValue == "false" && !b)
    case Array(items) => exists i :: 0 <= i < |items| && items[i] == Str(rule.claimValue)
    case Number(text) => text == rule.claimValue
    case _ => false
  }

  /** The texts that a claim carries. */
  function Texts(claim: Json): set<string>
  {
    match claim
    case Str(s) => {s}
    case Bool(b) => {if b then "true" else "false"}
    case Number(text) => {text}
    case Array(items) => set item | item in items && item.Str? :: item.s
    case _ => {}
  }

  /** The claim under the rule's key carries the rule's value. */
  predicate Applies(rule: PolicyRule, claims: Claims)
  {
    rule.claimKey in claims && rule.claimValue in Texts(claims[rule.claimKey])
  }

  lemma MatchesIff(rule: PolicyRule, claims: Claims)
    ensures Matches(rule, claims) <==> Applies(rule, claims)
  {
    var t, f := "true", "false";
    assert |t| != |f|;
    if rule.claimKey in claims && claims[rule.claimKey].Array? {
      var items := claims[rule.claimKey].items;
      assert Str(rule.claimValue) in items <==> exists i :: 0 <= i < |items| && items[i] == Str(rule.claimValue);
    }
  }

  const DEFAULT := Approved(Endpoint, 0)

  /** The stable `sort_by_key(|r| r.priority)`. */
  function ByPriority(rules: seq<PolicyRule>): seq<PolicyRule>
  {
    if rules == [] then [] else
      var n := |rules| - 1;
      Placed(ByPriority(rules[..n]), rules[n])
  }

  /** The rule goes after every rule of at most its priority number. */
  function Placed(sorted: seq<PolicyRule>, rule: PolicyRule): seq<PolicyRule>
  {
    var n := |sorted| - 1;
    if sorted == [] || sorted[n].priority <= rule.priority then sorted + [rule]
    else Placed(sorted[..n], rule) + [sorted[n]]
  }

  function FirstMatch(rules: seq<PolicyRule>, claims: Claims): Option<PolicyRule>
  {
    if rules == [] then None else
      var n := |rules| - 1;
      var before := FirstMatch(rules[..n], claims);
      if before.Some? then before else if Applies(rules[n], claims) then Some(rules[n]) else None
  }

  function Decision(winner: Option<PolicyRule>): EnrollmentDecision
  {
    match winner case Some(rule) => Approved(rule.tier, rule.permissions) case None => DEFAULT
  }

  function Evaluate(rules: seq<PolicyRule>, claims: Claims): EnrollmentDecision
  {
    Decision(FirstMatch(ByPriority(rules), claims))
  }

  lemma FirstMatchPlus(head: seq<PolicyRule>, rule: PolicyRule, claims: Claims)
    ensures FirstMatch(head + [rule], claims)
            == if FirstMatch(head, claims).Some? then FirstMatch(head, claims)
               else if Applies(rule, claims) then Some(rule) else None
  {
    assert (head + [rule])[..|head|] == head;
  }

  /** No rule before this one matches. */
  lemma FirstMatchAt(rules: seq<PolicyRule>, i: nat, claims: Claims)
    requires i < |rules| && FirstMatch(rules[..i], claims) == None
    ensures if Applies(rules[i], claims) then FirstMatch(rules, claims) == Some(rules[i])
            else FirstMatch(rules[..i + 1], claims) == None
  {
    FirstMatchPlus(rules[..i], rules[i], claims);
    assert rules[..i + 1] == rules[..i] + [rules[i]];
    if Applies(rules[i], claims) { FirstMatchExtends(rules, i + 1, claims); }
  }

  /** The decision of the winning rule, or Endpoint without permissions. */
  method EvaluatePolicy(rules: seq<PolicyRule>, claims: Claims) returns (d: EnrollmentDecision)
    ensures d == Evaluate(rules, claims)
    ensures Decides(rules, claims, d)
  {
    SortedScanFindsWinner(rules, claims);
    var sorted := ByPriority(rules);
    for i := 0 to |sorted|
      invariant FirstMatch(sorted[..i], claims) == None
    {
      FirstMatchAt(sorted, i, claims);
      MatchesIff(sorted[i], claims);
      if Matches(sorted[i], claims) {
        return Approved(sorted[i].tier, sorted[i].permissions);
      }
    }
    assert sorted[..|sorted|] == sorted;
    return DEFAULT;
  }

  lemma {:induction false} FirstMatchExtends(rules: seq<PolicyRule>, i: nat, claims: Claims)
    requires i <= |rules| && FirstMatch(rules[..i], claims).Some?
    ensures FirstMatch(rules, claims) == FirstMatch(rules[..i], claims)
  {
    if i == |rules| {
      assert rules[..i] == rules;
    } else {
      var n := |rules| - 1;
      assert rules[..n][..i] == rules[..i];
      FirstMatchExtends(rules[..n], i, claims);
    }
  }

  // --- What the sorted scan computes ---

  ghost predicate Ordered(rules: seq<PolicyRule>)
  {
    forall i, j :: 0 <= i < j < |rules| ==> rules[i].priority <= rules[j].priority
  }

  lemma {:induction false} PlacedOrdered(sorted: seq<PolicyRule>, rule: PolicyRule)
    requires Ordered(sorted)
    ensures Ordered(Placed(sorted, rule))
    ensures forall r :: r in Placed(sorted, rule) <==> r in sorted || r == rule
  {
    var n := |sorted| - 1;
    if sorted != [] && sorted[n].priority > rule.priority {
      PlacedOrdered(sorted[..n], rule);
      assert sorted == sorted[..n] + [sorted[n]];
      var rest := Placed(sorted[..n], rule);
      assert forall i :: 0 <= i < |rest| ==> rest[i] in rest;
    }
  }

  lemma {:induction false} ByPriorityOrdered(rules: seq<PolicyRule>)
    ensures Ordered(ByPriority(rules))
  {
    if rules != [] {
      ByPriorityOrdered(rules[..|rules| - 1]);
      PlacedOrdered(ByPriority(rules[..|rules| - 1]), rules[|rules| - 1]);
    }
  }

  lemma {:induction false} FirstMatchMember(rules: seq<PolicyRule>, claims: Claims)
    ensures FirstMatch(rules, claims).Some? ==>
              FirstMatch(rules, claims).value in rules && Applies(FirstMatch(rules, claims).value, claims)
  {
    if rules != [] { FirstMatchMember(rules[..|rules| - 1], claims); }
  }

  /** Placing one more rule changes the first match only if it matches with a smaller number. */
  lemma {:induction false} FirstMatchPlaced(sorted: seq<PolicyRule>, rule: PolicyRule, claims: Claims)
    requires Ordered(sorted)
    ensures var before := FirstMatch(sorted, claims);
            FirstMatch(Placed(sorted, rule), claims)
            == if Applies(rule, claims) && (before.None? || rule.priority < before.value.priority)
               then Some(rule) else before
  {
    var n := |sorted| - 1;
    FirstMatchMember(sorted, claims);
    if sorted == [] || sorted[n].priority <= rule.priority {
      assert (sorted + [rule])[..|sorted|] == sorted;
    } else {
      FirstMatchPlaced(sorted[..n], rule, claims);
      FirstMatchMember(sorted[..n], claims);
      var rest := Placed(sorted[..n], rule);
      assert (rest + [sorted[n]])[..|rest|] == rest;
    }
  }

  /** `i` wins: it applies, and every other rule that applies has a larger number, or the same and comes later. */
  ghost predicate Wins(rules: seq<PolicyRule>, claims: Claims, i: int)
  {
    0 <= i < |rules| && Applies(rules[i], claims)
    && forall j :: 0 <= j < |rules| && Applies(rules[j], claims) ==>
         rules[i].priority < rules[j].priority || (rules[i].priority == rules[j].priority && i <= j)
  }

  /** The outcome of the scan: the winner, or nothing when no rule applies. */
  ghost predicate Found(rules: seq<PolicyRule>, claims: Claims, r: Option<PolicyRule>)
  {
    if r.Some? then exists i :: Wins(rules, claims, i) && rules[i] == r.value
    else forall rule :: rule in rules ==> !Applies(rule, claims)
  }

  /** The decision of the winner, or the default. */
  ghost predicate Decides(rules: seq<PolicyRule>, claims: Claims, d: EnrollmentDecision)
  {
    || (exists i :: Wins(rules, claims, i) && d == Approved(rules[i].tier, rules[i].permissions))
    || ((forall rule :: rule in rules ==> !Applies(rule, claims)) && d == Approved(Endpoint, 0))
  }

  lemma FoundExtends(head: seq<PolicyRule>, last: PolicyRule, claims: Claims, before: Option<PolicyRule>)
    requires Found(head, claims, before)
    ensures Found(head + [last], claims,
                  if Applies(last, claims) && (before.None? || last.priority < before.value.priority)
                  then Some(last) else before)
  {
    var rules, n := head + [last], |head|;
    assert forall j :: 0 <= j < n ==> rules[j] == head[j];
    if Applies(last, claims) && (before.None? || last.priority < before.value.priority) {
      assert Wins(rules, claims, n);
    } else if before.Some? {
      var i :| Wins(head, claims, i) && head[i] == before.value;
      assert Wins(rules, claims, i);
    }
  }

  lemma ByPriorityPlus(head: seq<PolicyRule>, last: PolicyRule)
    ensures ByPriority(head + [last]) == Placed(ByPriority(head), last)
  {
    assert (head + [last])[..|head|] == head;
  }

  lemma SortedScanExtends(head: seq<PolicyRule>, last: PolicyRule, claims: Claims)
    requires Found(head, claims, FirstMatch(ByPriority(head), claims))
    ensures Found(head + [last], claims, FirstMatch(ByPriority(head + [last]), claims))
  {
    ByPriorityOrdered(head);
    ByPriorityPlus(head, last);
    FirstMatchPlaced(ByPriority(head), last, claims);
    FoundExtends(head, last, claims, FirstMatch(ByPriority(head), claims));
  }

  lemma {:induction false} SortedScanFindsWinner(rules: seq<PolicyRule>, claims: Claims)
    ensures Found(rules, claims, FirstMatch(ByPriority(rules), claims))
  {
    if rules != [] {
      var head, last := rules[..|rules| - 1], rules[|rules| - 1];
      SortedScanFindsWinner(head, claims);
      SortedScanExtends(head, last, claims);
      assert rules == head + [last];
    }
  }

  // --- On the store ---

  ghost predicate HasRule(db: Redb.Db, org: string, rule: PolicyRule)
  {
    (Rules, Key(org, rule.ruleId)) in db.rows && db.rows[(Rules, Key(org, rule.ruleId))] == RuleRow(rule)
  }

  predicate Precedes(r: PolicyRule, s: PolicyRule)
  {
    r.priority < s.priority || (r.priority == s.priority && Less(r.ruleId, s.ruleId))
  }

  /** The rule with the least (priority, rule_id) among those that apply. */
  ghost predicate Best(db: Redb.Db, org: string, claims: Claims, rule: PolicyRule)
  {
    HasRule(db, org, rule) && Applies(rule, claims)
    && forall r :: HasRule(db, org, r) && Applies(r, claims) && r != rule ==> Precedes(rule, r)
  }

  function RulesIn(rows: seq<Row>): seq<PolicyRule>
  {
    if rows == [] then [] else
      var n := |rows| - 1;
      RulesIn(rows[..n]) + if rows[n].RuleRow? then [rows[n].rule] else []
  }

  function Decide(db: Redb.Db, org: string, claims: Claims): EnrollmentDecision
  {
    Evaluate(RulesIn(Redb.Listing(db.rows, Rules, org)), claims)
  }

  ghost predicate IsListing(db: Redb.Db, org: string, rules: seq<PolicyRule>)
  {
    && (forall i :: 0 <= i < |rules| ==> HasRule(db, org, rules[i]))
    && (forall i, j :: 0 <= i < j < |rules| ==> Less(rules[i].ruleId, rules[j].ruleId))
    && (forall r :: HasRule(db, org, r) ==> r in rules)
  }

  lemma WinnerIsBest(db: Redb.Db, org: string, claims: Claims, rules: seq<PolicyRule>, i: int)
    requires IsListing(db, org, rules) && Wins(rules, claims, i)
    ensures Best(db, org, claims, rules[i])
  {
    forall s | HasRule(db, org, s) && Applies(s, claims) && s != rules[i] ensures Precedes(rules[i], s) {
      var j :| 0 <= j < |rules| && rules[j] == s;
    }
  }

  lemma EvaluateIsBest(db: Redb.Db, org: string, claims: Claims, rules: seq<PolicyRule>)
    requires IsListing(db, org, rules)
    ensures (exists rule :: Best(db, org, claims, rule) && Evaluate(rules, claims) == Approved(rule.tier, rule.permissions))
            || ((forall r :: HasRule(db, org, r) ==> !Applies(r, claims)) && Evaluate(rules, claims) == Approved(Endpoint, 0))
  {
    SortedScanFindsWinner(rules, claims);
    var r := FirstMatch(ByPriority(rules), claims);
    if r.Some? {
      var i :| Wins(rules, claims, i) && rules[i] == r.value;
      WinnerIsBest(db, org, claims, rules, i);
    }
  }

  /** The rows stored under the ids. */
  ghost predicate RowsAt(db: Redb.Db, org: string, ids: seq<string>, rows: seq<Row>)
  {
    |rows| == |ids|
    && forall i :: 0 <= i < |ids| ==>
         (Rules, Key(org, ids[i])) in db.rows && rows[i] == db.rows[(Rules, Key(org, ids[i]))]
  }

  ghost predicate RulesAt(db: Redb.Db, org: string, ids: seq<string>, rules: seq<PolicyRule>)
  {
    |rules| == |ids| && forall i :: 0 <= i < |ids| ==> HasRule(db, org, rules[i]) && rules[i].ruleId == ids[i]
  }

  lemma {:induction false} RulesOfRows(db: Redb.Db, org: string, ids: seq<string>, rows: seq<Row>)
    requires Owned(db) && NulFree(org) && RowsAt(db, org, ids, rows)
    ensures RulesAt(db, org, ids, RulesIn(rows))
  {
    if rows != [] {
      var n := |rows| - 1;
      RulesOfRows(db, org, ids[..n], rows[..n]);
      FiledAt(db, Rules, org, ids[n]);
    }
  }

  lemma RulesAreListing(db: Redb.Db, org: string, ids: seq<string>, rules: seq<PolicyRule>)
    requires Ascending(ids) && RulesAt(db, org, ids, rules)
    requires forall id :: (Rules, Key(org, id)) in db.rows ==> id in ids
    ensures IsListing(db, org, rules)
  {
    assert forall r :: HasRule(db, org, r) ==> r.ruleId in ids;
  }

  /** The listing, as rules in the order of their ids. */
  lemma RuleListing(db: Redb.Db, org: string)
    requires Owned(db) && NulFree(org)
    ensures IsListing(db, org, RulesIn(Redb.Listing(db.rows, Rules, org)))
  {
    var ids, rows := SortedKeys(LocalIds(db.rows, Rules, org)), Redb.Listing(db.rows, Rules, org);
    ListingById(db.rows, Rules, org);
    SortedKeysAscending(LocalIds(db.rows, Rules, org));
    RulesOfRows(db, org, ids, rows);
    RulesAreListing(db, org, ids, RulesIn(rows));
  }

  /** The decision is the best rule's; if no rule applies, Endpoint without permissions. */
  lemma DecideIsBest(db: Redb.Db, org: string, claims: Claims)
    requires Owned(db) && NulFree(org)
    ensures (exists rule :: Best(db, org, claims, rule) && Decide(db, org, claims) == Approved(rule.tier, rule.permissions))
            || ((forall r :: HasRule(db, org, r) ==> !Applies(r, claims)) && Decide(db, org, claims) == Approved(Endpoint, 0))
  {
    RuleListing(db, org);
    EvaluateIsBest(db, org, claims, RulesIn(Redb.Listing(db.rows, Rules, org)));
  }

  lemma BestUnique(db: Redb.Db, org: string, claims: Claims, r: PolicyRule, s: PolicyRule)
    requires Best(db, org, claims, r) && Best(db, org, claims, s)
    ensures r == s
  {
    LessTotal(r.ruleId, s.ruleId);
  }

  /** The decision depends only on the best rule: stores that share it decide alike, whatever
      other rules, in whatever order, were added to or deleted from one of them. */
  lemma OtherRulesDoNotMatter(db: Redb.Db, db': Redb.Db, org: string, claims: Claims, rule: PolicyRule)
    requires Owned(db) && Owned(db') && NulFree(org)
    requires Best(db, org, claims, rule) && HasRule(db', org, rule)
    requires forall r :: HasRule(db', org, r) && !HasRule(db, org, r) ==> !Applies(r, claims) || Precedes(rule, r)
    ensures Decide(db, org, claims) == Decide(db', org, claims)
  {
    assert Best(db', org, claims, rule);
    DecideIsBest(db, org, claims);
    DecideIsBest(db', org, claims);
    forall r | Best(db, org, claims, r) ensures r == rule { BestUnique(db, org, claims, r, rule); }
    forall r | Best(db', org, claims, r) ensures r == rule { BestUnique(db', org, claims, r, rule); }
  }

  lemma UnmatchedRulesDoNotMatter(db: Redb.Db, db': Redb.Db, org: string, claims: Claims)
    requires Owned(db) && Owned(db') && NulFree(org)
    requires forall r :: HasRule(db, org, r) || HasRule(db', org, r) ==> !Applies(r, claims)
    ensures Decide(db, org, claims) == Decide(db', org, claims) == Approved(Endpoint, 0)
  {
    DecideIsBest(db, org, claims);
    DecideIsBest(db', org, claims);
  }
}
