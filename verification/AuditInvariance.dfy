/** What the verdict of the audit gate depends on, and what it does not. */
module AuditInvariance {
  import opened Wrappers
  import opened Relations
  import opened AuditExceptions
  import opened AuditData
  import opened AuditGate
  import opened AuditVerdict

  lemma SameMembers<T(!new)>(s: seq<T>, t: seq<T>)
    requires Permutes(s, t)
    ensures forall x :: x in s <==> x in t
  {
    forall x ensures x in s <==> x in t {
      assert x in s <==> x in multiset(s);
      assert x in t <==> x in multiset(t);
    }
  }

  /** The order of the exception records never matters. */
  lemma ExceptionOrder(lib: Library, excs: seq<Record>, permuted: seq<Record>, vulns: seq<Vuln>, today: int)
    requires Permutes(excs, permuted)
    ensures Clean(lib, excs, vulns, today) <==> Clean(lib, permuted, vulns, today)
  {
    SameMembers(excs, permuted);
    var key := (r: Record) => ExceptionKey(lib, r);
    if CleanExceptions(lib, excs) {
      DistinctByPermutation(excs, permuted, key);
    }
    if CleanExceptions(lib, permuted) {
      DistinctByPermutation(permuted, excs, key);
    }
    forall v ensures Excused(lib, excs, today, v) <==> Excused(lib, permuted, today, v)
             ensures Agrees(lib, excs, v) <==> Agrees(lib, permuted, v)
    {
    }
  }

  // Entries under one key carry one severity.
  ghost predicate OneSeverityPerKey(lib: Library, vulns: seq<Vuln>)
  {
    forall v, w | v in vulns && w in vulns && Keyed(lib, v) && Keyed(lib, w) && VulnKey(lib, v) == VulnKey(lib, w) ::
      Severity(lib, v) == Severity(lib, w)
  }

  ghost predicate AllAgree(lib: Library, excs: seq<Record>, vulns: seq<Vuln>)
  {
    forall v | v in vulns && Keyed(lib, v) :: Agrees(lib, excs, v)
  }

  // When entries of a key agree with each other, comparing the first one is comparing all.
  lemma {:induction false} FirstsSpeakForAll(lib: Library, excs: seq<Record>, vulns: seq<Vuln>)
    requires OneSeverityPerKey(lib, vulns)
    ensures FirstsAgree(lib, excs, vulns) <==> AllAgree(lib, excs, vulns)
  {
    forall i | FirstOfKey(lib, vulns, i) ensures vulns[i] in vulns && Keyed(lib, vulns[i]) {
    }
    if FirstsAgree(lib, excs, vulns) {
      forall v | v in vulns && Keyed(lib, v) ensures Agrees(lib, excs, v) {
        var i := FirstOfEachKey(lib, vulns, v);
        assert Agrees(lib, excs, vulns[i]);
      }
    }
  }

  /** The verdict is the same for any two reports that list the same entries, in whatever
      order and however often, as long as entries of one key carry one severity. */
  lemma EntryOrder(lib: Library, excs: seq<Record>, vulns: seq<Vuln>, other: seq<Vuln>, today: int)
    requires forall v :: v in vulns <==> v in other
    requires OneSeverityPerKey(lib, vulns)
    ensures Clean(lib, excs, vulns, today) <==> Clean(lib, excs, other, today)
  {
    assert OneSeverityPerKey(lib, other);
    FirstsSpeakForAll(lib, excs, vulns);
    FirstsSpeakForAll(lib, excs, other);
  }

  // No entry of this key agrees with its exception.
  ghost predicate NeverAgrees(lib: Library, excs: seq<Record>, vulns: seq<Vuln>, v: Vuln)
  {
    forall w | w in vulns && Keyed(lib, w) && VulnKey(lib, w) == VulnKey(lib, v) :: !Agrees(lib, excs, w)
  }

  // No order of the entries a, in front of the entries b, changes the verdict.
  ghost predicate OrderIndependent(lib: Library, excs: seq<Record>, a: seq<Vuln>, b: seq<Vuln>, today: int)
  {
    forall other: seq<Vuln> | Permutes(other, a) ::
      Clean(lib, excs, other + b, today) <==> Clean(lib, excs, a + b, today)
  }

  // The order cannot matter: something else fails, or every entry of a agrees, or a key has
  // no agreeing entry in a at all.
  ghost predicate OrderIrrelevant(lib: Library, excs: seq<Record>, a: seq<Vuln>, b: seq<Vuln>, today: int)
  {
    || !CleanExceptions(lib, excs) || !AllExcused(lib, excs, a + b, today) || !LaterAgree(lib, excs, a, b)
    || AllAgree(lib, excs, a)
    || exists v {:trigger NeverAgrees(lib, excs, a, v)} | v in a :: Keyed(lib, v) && NeverAgrees(lib, excs, a, v)
  }

  // The entries with the agreeing ones moved to the front, or to the back.
  function AgreeingFirst(agrees: Vuln -> bool, vulns: seq<Vuln>): seq<Vuln>
  {
    Select(agrees, vulns) + Select((v: Vuln) => !agrees(v), vulns)
  }

  lemma AgreeingFirstPermutes(agrees: Vuln -> bool, vulns: seq<Vuln>)
    ensures Permutes(AgreeingFirst(agrees, vulns), vulns)
  {
    forall v ensures multiset(AgreeingFirst(agrees, vulns))[v] == multiset(vulns)[v] {
      SelectCount(agrees, vulns, v);
      SelectCount((w: Vuln) => !agrees(w), vulns, v);
    }
  }

  // With one side in front, the first entry of a key is on that side whenever some entry
  // of the key is.
  lemma FirstIsInFront(lib: Library, front: Vuln -> bool, vulns: seq<Vuln>, v: Vuln, i: nat)
    requires v in vulns && Keyed(lib, v) && front(v)
    requires FirstOfKey(lib, AgreeingFirst(front, vulns), i)
    requires VulnKey(lib, AgreeingFirst(front, vulns)[i]) == VulnKey(lib, v)
    ensures front(AgreeingFirst(front, vulns)[i]) && AgreeingFirst(front, vulns)[i] in vulns
  {
    var fronts, ordered := Select(front, vulns), AgreeingFirst(front, vulns);
    SelectMembers(front, vulns);
    var n :| 0 <= n < |fronts| && fronts[n] == v;
    assert ordered[n] == v;
    assert i <= n;
    assert ordered[i] == fronts[i];
  }

  lemma SameEntriesExcused(
    lib: Library, excs: seq<Record>, vulns: seq<Vuln>, other: seq<Vuln>, b: seq<Vuln>, today: int)
    requires forall v :: v in vulns <==> v in other
    ensures AllExcused(lib, excs, vulns + b, today) <==> AllExcused(lib, excs, other + b, today)
  {
    assert forall v :: v in vulns + b <==> v in other + b;
  }

  lemma SameEntriesSeen(lib: Library, excs: seq<Record>, vulns: seq<Vuln>, other: seq<Vuln>, b: seq<Vuln>)
    requires forall v :: v in vulns <==> v in other
    ensures LaterAgree(lib, excs, vulns, b) <==> LaterAgree(lib, excs, other, b)
  {
    forall k ensures Seen(lib, vulns, k) <==> Seen(lib, other, k) {
      SameEntriesSeenKey(lib, vulns, other, k);
      SameEntriesSeenKey(lib, other, vulns, k);
    }
  }

  lemma SameEntriesSeenKey(lib: Library, vulns: seq<Vuln>, other: seq<Vuln>, k: Key)
    requires forall v | v in vulns :: v in other
    ensures Seen(lib, vulns, k) ==> Seen(lib, other, k)
  {
    SeenMeans(lib, vulns, k);
    SeenMeans(lib, other, k);
    if j :| 0 <= j < |vulns| && Keyed(lib, vulns[j]) && VulnKey(lib, vulns[j]) == k {
      assert vulns[j] in vulns;
      var i :| 0 <= i < |other| && other[i] == vulns[j];
      assert Keyed(lib, other[i]) && VulnKey(lib, other[i]) == k;
    }
  }

  lemma SomeAgrees(lib: Library, excs: seq<Record>, vulns: seq<Vuln>, v: Vuln) returns (w: Vuln)
    requires !NeverAgrees(lib, excs, vulns, v)
    ensures w in vulns && Keyed(lib, w) && VulnKey(lib, w) == VulnKey(lib, v) && Agrees(lib, excs, w)
  {
    w :| w in vulns && Keyed(lib, w) && VulnKey(lib, w) == VulnKey(lib, v) && Agrees(lib, excs, w);
  }

  lemma AgreeingFirstAgrees(lib: Library, excs: seq<Record>, vulns: seq<Vuln>, agrees: Vuln -> bool)
    requires forall v :: agrees(v) <==> Agrees(lib, excs, v)
    requires forall v {:trigger NeverAgrees(lib, excs, vulns, v)} | v in vulns && Keyed(lib, v) ::
               !NeverAgrees(lib, excs, vulns, v)
    ensures FirstsAgree(lib, excs, AgreeingFirst(agrees, vulns))
  {
    var other := AgreeingFirst(agrees, vulns);
    AgreeingFirstPermutes(agrees, vulns);
    SameMembers(other, vulns);
    forall i | FirstOfKey(lib, other, i) ensures Agrees(lib, excs, other[i]) {
      assert other[i] in other;
      var w := SomeAgrees(lib, excs, vulns, other[i]);
      FirstIsInFront(lib, agrees, vulns, w, i);
    }
  }

  // If every key has an agreeing entry, some order passes.
  lemma {:induction false} PassingOrder(lib: Library, excs: seq<Record>, a: seq<Vuln>, b: seq<Vuln>, today: int)
    returns (other: seq<Vuln>)
    requires CleanExceptions(lib, excs) && AllExcused(lib, excs, a + b, today) && LaterAgree(lib, excs, a, b)
    requires forall v {:trigger NeverAgrees(lib, excs, a, v)} | v in a && Keyed(lib, v) :: !NeverAgrees(lib, excs, a, v)
    ensures Permutes(other, a) && Clean(lib, excs, other + b, today)
  {
    var agrees := (v: Vuln) => Agrees(lib, excs, v);
    other := AgreeingFirst(agrees, a);
    AgreeingFirstPermutes(agrees, a);
    SameMembers(other, a);
    SameEntriesExcused(lib, excs, a, other, b, today);
    SameEntriesSeen(lib, excs, a, other, b);
    AgreeingFirstAgrees(lib, excs, a, agrees);
    FirstsAgreeConcat(lib, excs, other, b);
  }

  // If some entry disagrees, some order fails.
  lemma FailingOrder(lib: Library, excs: seq<Record>, a: seq<Vuln>, b: seq<Vuln>, today: int, v: Vuln)
    returns (other: seq<Vuln>)
    requires v in a && Keyed(lib, v) && !Agrees(lib, excs, v)
    ensures Permutes(other, a) && !Clean(lib, excs, other + b, today)
  {
    var disagrees := (w: Vuln) => !Agrees(lib, excs, w);
    other := AgreeingFirst(disagrees, a);
    AgreeingFirstPermutes(disagrees, a);
    SameMembers(other, a);
    var i := FirstOfEachKey(lib, other, v);
    FirstIsInFront(lib, disagrees, a, v, i);
    FirstsAgreeConcat(lib, excs, other, b);
  }

  // Otherwise two orders of the same entries get different verdicts.
  lemma {:induction false} TwoVerdicts(lib: Library, excs: seq<Record>, a: seq<Vuln>, b: seq<Vuln>, today: int)
    returns (passing: seq<Vuln>, failing: seq<Vuln>)
    ensures Permutes(passing, a) && Permutes(failing, a)
    ensures !OrderIrrelevant(lib, excs, a, b, today) ==>
              Clean(lib, excs, passing + b, today) && !Clean(lib, excs, failing + b, today)
  {
    passing, failing := a, a;
    if !OrderIrrelevant(lib, excs, a, b, today) {
      passing := PassingOrder(lib, excs, a, b, today);
      var v :| v in a && Keyed(lib, v) && !Agrees(lib, excs, v);
      failing := FailingOrder(lib, excs, a, b, today, v);
    }
  }

  // When the order cannot matter, the verdict is whether everything agrees.
  lemma SettledVerdict(lib: Library, excs: seq<Record>, a: seq<Vuln>, b: seq<Vuln>, today: int)
    requires OrderIrrelevant(lib, excs, a, b, today)
    ensures Clean(lib, excs, a + b, today) <==>
            && CleanExceptions(lib, excs) && AllExcused(lib, excs, a + b, today)
            && LaterAgree(lib, excs, a, b) && AllAgree(lib, excs, a)
  {
    FirstsAgreeConcat(lib, excs, a, b);
    forall i | FirstOfKey(lib, a, i) ensures a[i] in a {
    }
    if v :| v in a && Keyed(lib, v) && NeverAgrees(lib, excs, a, v) {
      var i := FirstOfEachKey(lib, a, v);
      assert !Agrees(lib, excs, a[i]);
    }
  }

  lemma {:induction false} SameEntriesIrrelevant(
    lib: Library, excs: seq<Record>, a: seq<Vuln>, other: seq<Vuln>, b: seq<Vuln>, today: int)
    requires forall v :: v in a <==> v in other
    requires OrderIrrelevant(lib, excs, a, b, today)
    ensures OrderIrrelevant(lib, excs, other, b, today)
  {
    SameEntriesExcused(lib, excs, a, other, b, today);
    SameEntriesSeen(lib, excs, a, other, b);
    if v :| v in a && Keyed(lib, v) && NeverAgrees(lib, excs, a, v) {
      assert NeverAgrees(lib, excs, other, v);
    }
  }

  lemma IrrelevantIsIndependent(
    lib: Library, excs: seq<Record>, a: seq<Vuln>, other: seq<Vuln>, b: seq<Vuln>, today: int)
    requires OrderIrrelevant(lib, excs, a, b, today) && Permutes(other, a)
    ensures Clean(lib, excs, other + b, today) <==> Clean(lib, excs, a + b, today)
  {
    SameMembers(other, a);
    SameEntriesExcused(lib, excs, a, other, b, today);
    SameEntriesSeen(lib, excs, a, other, b);
    SameEntriesIrrelevant(lib, excs, a, other, b, today);
    SettledVerdict(lib, excs, a, b, today);
    SettledVerdict(lib, excs, other, b, today);
  }

  /** The verdict depends on the order of the entries a in front of the entries b exactly
      when everything else is in order, some entry of a disagrees with its exception on the
      severity, and every key of a has an entry there that agrees: the severity is compared
      for the first entry of a key only. */
  lemma OrderDependence(lib: Library, excs: seq<Record>, a: seq<Vuln>, b: seq<Vuln>, today: int)
    ensures OrderIndependent(lib, excs, a, b, today) <==> OrderIrrelevant(lib, excs, a, b, today)
  {
    if OrderIrrelevant(lib, excs, a, b, today) {
      forall other: seq<Vuln> | Permutes(other, a)
        ensures Clean(lib, excs, other + b, today) <==> Clean(lib, excs, a + b, today)
      {
        IrrelevantIsIndependent(lib, excs, a, other, b, today);
      }
    } else {
      var passing, failing := TwoVerdicts(lib, excs, a, b, today);
    }
  }

  /** A gate that passes on a day would have passed on every earlier day. */
  lemma EarlierDay(lib: Library, excs: seq<Record>, vulns: seq<Vuln>, today: int, earlier: int)
    requires earlier <= today && Clean(lib, excs, vulns, today)
    ensures Clean(lib, excs, vulns, earlier)
  {
    forall v | Excused(lib, excs, today, v) ensures Excused(lib, excs, earlier, v) {
    }
  }

  // The entries of b that are compared behind a but no longer behind a + more agree.
  ghost predicate HiddenAgree(lib: Library, excs: seq<Record>, a: seq<Vuln>, more: seq<Vuln>, b: seq<Vuln>)
  {
    forall i {:trigger FirstOfKey(lib, b, i)} |
      FirstOfKey(lib, b, i) && !Seen(lib, a, VulnKey(lib, b[i])) && Seen(lib, more, VulnKey(lib, b[i])) ::
      Agrees(lib, excs, b[i])
  }

  /** Further audit entries turn a failing gate into a passing one exactly when they hide an
      entry that disagrees: one behind them that was the first of its key before. Entries
      behind all the others never do. */
  lemma {:induction false} MoreEntries(
    lib: Library, excs: seq<Record>, a: seq<Vuln>, more: seq<Vuln>, b: seq<Vuln>, today: int)
    requires Clean(lib, excs, a + more + b, today)
    ensures Clean(lib, excs, a + b, today) <==> HiddenAgree(lib, excs, a, more, b)
    ensures b == [] ==> Clean(lib, excs, a, today)
  {
    FirstsAgreeConcat(lib, excs, a + more, b);
    FirstsAgreeConcat(lib, excs, a, more);
    FirstsAgreeConcat(lib, excs, a, b);
    forall k ensures Seen(lib, a + more, k) <==> Seen(lib, a, k) || Seen(lib, more, k) {
      SeenConcat(lib, a, more, k);
    }
    assert forall v | v in a + b :: v in a + more + b;
    assert b == [] ==> a + b == a;
  }

  // x and y are the first entries of their keys, x before y.
  ghost predicate Earlier(lib: Library, vulns: seq<Vuln>, x: Vuln, y: Vuln)
  {
    exists a, b :: a < b && FirstOfKey(lib, vulns, a) && FirstOfKey(lib, vulns, b) && vulns[a] == x && vulns[b] == y
  }

  lemma {:induction false} FirstsInOrder(lib: Library, vulns: seq<Vuln>)
    ensures forall i, j | 0 <= i < j < |Firsts(lib, vulns)| ::
              Earlier(lib, vulns, Firsts(lib, vulns)[i], Firsts(lib, vulns)[j])
  {
    if vulns == [] {
    } else {
      var n := |vulns| - 1;
      var init, v := vulns[..n], vulns[n];
      var firsts := Firsts(lib, init);
      assert vulns == init + [v];
      FirstsInOrder(lib, init);
      FirstsAppend(lib, init, v);
      FirstOfKeyAppend(lib, init, v, n);
      forall i, j | 0 <= i < j < |Firsts(lib, vulns)|
        ensures Earlier(lib, vulns, Firsts(lib, vulns)[i], Firsts(lib, vulns)[j])
      {
        if j < |firsts| {
          var a, b :|
            && a < b && FirstOfKey(lib, init, a) && FirstOfKey(lib, init, b)
            && init[a] == firsts[i] && init[b] == firsts[j];
          FirstOfKeyAppend(lib, init, v, a);
          FirstOfKeyAppend(lib, init, v, b);
          assert FirstOfKey(lib, vulns, a) && FirstOfKey(lib, vulns, b);
          assert vulns[a] == firsts[i] && vulns[b] == firsts[j];
        } else {
          FirstsAreFirst(lib, init, firsts[i]);
          assert firsts[i] in firsts;
          var a :| FirstOfKey(lib, init, a) && init[a] == firsts[i];
          FirstOfKeyAppend(lib, init, v, a);
          assert FirstOfKey(lib, vulns, a) && FirstOfKey(lib, vulns, n) && vulns[a] == firsts[i] && vulns[n] == v;
        }
      }
    }
  }

  /** The lists of the report, entry by entry: relevant entries without an advisory, and of the
      first entries of each key those without an exception, those whose exception states
      another severity, and those whose exception is no longer valid; an entry can be in both
      of the last two. */
  lemma ReportLists(lib: Library, index: map<Key, Indexed>, today: int, vulns: seq<Vuln>, x: Vuln)
    ensures var report, k := ReportOf(lib, index, today, vulns), VulnKey(lib, x);
      && (x in report.unnamed <==> x in vulns && Relevant(lib, x) && Advisory(lib, x) == "")
      && (x in report.missing <==> IsFirst(lib, vulns, x) && k !in index)
      && (x in report.mismatched <==>
            && IsFirst(lib, vulns, x) && k in index
            && index[k].severity != "" && Severity(lib, x) != Some(index[k].severity))
      && (x in report.expired <==> IsFirst(lib, vulns, x) && k in index && index[k].expiresOn < today)
  {
    FirstsAreFirst(lib, vulns, x);
    SelectMembers((v: Vuln) => Relevant(lib, v) && Advisory(lib, v) == "", vulns);
    SelectMembers((v: Vuln) => VulnKey(lib, v) !in index, Firsts(lib, vulns));
    SelectMembers((v: Vuln) => Mismatched(lib, index, v), Firsts(lib, vulns));
    SelectMembers((v: Vuln) => Expired(lib, index, today, v), Firsts(lib, vulns));
  }

  /** Accounting: the missing list names each unexcused key once, by its first entry and in
      the order the keys were first seen; no key is both missing and expired. */
  lemma MissingAccounted(lib: Library, index: map<Key, Indexed>, today: int, vulns: seq<Vuln>)
    ensures var missing := ReportOf(lib, index, today, vulns).missing;
      && (forall x :: x in missing <==> IsFirst(lib, vulns, x) && VulnKey(lib, x) !in index)
      && DistinctBy(missing, (v: Vuln) => VulnKey(lib, v))
      && forall i, j | 0 <= i < j < |missing| :: Earlier(lib, vulns, missing[i], missing[j])
    ensures var report := ReportOf(lib, index, today, vulns);
            forall x, y | x in report.missing && y in report.expired ::
              VulnKey(lib, x) != VulnKey(lib, y)
  {
    var unindexed := (v: Vuln) => VulnKey(lib, v) !in index;
    var firsts := Firsts(lib, vulns);
    SelectMembers(unindexed, firsts);
    SelectMembers((v: Vuln) => Expired(lib, index, today, v), firsts);
    FirstByFacts(KeyedVulns(lib, vulns), (v: Vuln) => VulnKey(lib, v));
    SelectDistinctBy(unindexed, firsts, (v: Vuln) => VulnKey(lib, v));
    FirstsInOrder(lib, vulns);
    SelectPairwise(unindexed, firsts, (x, y) => Earlier(lib, vulns, x, y));
    forall x ensures x in firsts <==> IsFirst(lib, vulns, x) {
      FirstsAreFirst(lib, vulns, x);
    }
  }
}
