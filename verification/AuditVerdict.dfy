/** The verdict of the audit gate against a specification that only quantifies over the
    exception records and the vulnerabilities, and what follows from it. */
module AuditVerdict {
  import opened Wrappers
  import opened Relations
  import opened AuditExceptions
  import opened AuditData
  import opened AuditScan
  import opened AuditGate

  // Some exception under the key of v is still valid today.
  ghost predicate Excused(lib: Library, excs: seq<Record>, today: int, v: Vuln)
  {
    exists r | r in excs :: WellFormed(lib, r) && ExceptionKey(lib, r) == VulnKey(lib, v) && today <= Expiry(lib, r)
  }

  // The exceptions under the key of v state its severity, or none.
  ghost predicate Agrees(lib: Library, excs: seq<Record>, v: Vuln)
  {
    forall r | r in excs && ExceptionKey(lib, r) == VulnKey(lib, v) ::
      ExceptionSeverity(lib, r) == "" || Some(ExceptionSeverity(lib, r)) == Severity(lib, v)
  }

  // vulns[i] is the first relevant entry of its key.
  ghost predicate FirstOfKey(lib: Library, vulns: seq<Vuln>, i: int)
  {
    && 0 <= i < |vulns| && Keyed(lib, vulns[i])
    && forall j | 0 <= j < i && Keyed(lib, vulns[j]) :: VulnKey(lib, vulns[j]) != VulnKey(lib, vulns[i])
  }

  ghost predicate CleanExceptions(lib: Library, excs: seq<Record>)
  {
    (forall r | r in excs :: WellFormed(lib, r)) && DistinctBy(excs, (r: Record) => ExceptionKey(lib, r))
  }

  // The part of the verdict that does not look at the order of the entries.
  ghost predicate AllExcused(lib: Library, excs: seq<Record>, vulns: seq<Vuln>, today: int)
  {
    && Scannable(lib, vulns)
    && forall v | v in vulns && Relevant(lib, v) :: Advisory(lib, v) != "" && Excused(lib, excs, today, v)
  }

  ghost predicate FirstsAgree(lib: Library, excs: seq<Record>, vulns: seq<Vuln>)
  {
    forall i {:trigger FirstOfKey(lib, vulns, i)} | FirstOfKey(lib, vulns, i) :: Agrees(lib, excs, vulns[i])
  }

  // The gate has nothing to complain about.
  ghost predicate Clean(lib: Library, excs: seq<Record>, vulns: seq<Vuln>, today: int)
  {
    CleanExceptions(lib, excs) && AllExcused(lib, excs, vulns, today) && FirstsAgree(lib, excs, vulns)
  }

  predicate NothingReported(report: Report)
  {
    report == Report([], [], [], [])
  }

  // A key is indexed exactly when some well-formed record has it.
  lemma {:induction false} IndexKeys(lib: Library, excs: seq<Record>, k: Key)
    ensures k in Index(lib, excs) <==> exists r | r in excs :: WellFormed(lib, r) && ExceptionKey(lib, r) == k
  {
    if excs == [] {
    } else {
      IndexKeys(lib, excs[..|excs| - 1], k);
      assert excs == excs[..|excs| - 1] + [excs[|excs| - 1]];
    }
  }

  ghost predicate HasRecord(lib: Library, excs: seq<Record>, k: Key)
  {
    exists r | r in excs :: ExceptionKey(lib, r) == k
  }

  lemma CleanAppend(lib: Library, excs: seq<Record>, r: Record)
    ensures CleanExceptions(lib, excs + [r]) <==>
            CleanExceptions(lib, excs) && WellFormed(lib, r) && !HasRecord(lib, excs, ExceptionKey(lib, r))
  {
    var key := (q: Record) => ExceptionKey(lib, q);
    DistinctByAppend(excs, key, r);
    if KeyIn(excs, key, key(r)) {
      var i :| 0 <= i < |excs| && key(excs[i]) == key(r);
      assert excs[i] in excs;
    }
    if HasRecord(lib, excs, ExceptionKey(lib, r)) {
      var q :| q in excs && ExceptionKey(lib, q) == ExceptionKey(lib, r);
      var i :| 0 <= i < |excs| && excs[i] == q;
      assert key(excs[i]) == key(r);
    }
    assert forall q | q in excs :: q in excs + [r];
  }

  /** The first loop raises no error exactly when every record is well formed and no two
      share a key. */
  lemma {:induction false} RefusalsEmpty(lib: Library, excs: seq<Record>)
    ensures Refusals(lib, excs) == [] <==> CleanExceptions(lib, excs)
  {
    if excs == [] {
    } else {
      var init, last := excs[..|excs| - 1], excs[|excs| - 1];
      assert excs == init + [last];
      RefusalsEmpty(lib, init);
      IndexKeys(lib, init, ExceptionKey(lib, last));
      CleanAppend(lib, init, last);
    }
  }

  // In a clean list every record is indexed under its key with its own data.
  lemma {:induction false} IndexEntries(lib: Library, excs: seq<Record>, r: Record)
    requires CleanExceptions(lib, excs) && r in excs
    ensures ExceptionKey(lib, r) in Index(lib, excs) && Index(lib, excs)[ExceptionKey(lib, r)] == IndexEntry(lib, r)
  {
    var init, last := excs[..|excs| - 1], excs[|excs| - 1];
    assert excs == init + [last];
    CleanAppend(lib, init, last);
    IndexKeys(lib, init, ExceptionKey(lib, last));
    if r in init {
      IndexEntries(lib, init, r);
    }
  }

  lemma SeenMeans(lib: Library, vulns: seq<Vuln>, k: Key)
    ensures Seen(lib, vulns, k) <==> exists j | 0 <= j < |vulns| :: Keyed(lib, vulns[j]) && VulnKey(lib, vulns[j]) == k
  {
    SelectMembers((v: Vuln) => Keyed(lib, v), vulns);
    if Seen(lib, vulns, k) {
      var m :| 0 <= m < |KeyedVulns(lib, vulns)| && VulnKey(lib, KeyedVulns(lib, vulns)[m]) == k;
      assert KeyedVulns(lib, vulns)[m] in vulns;
    }
    if j :| 0 <= j < |vulns| && Keyed(lib, vulns[j]) && VulnKey(lib, vulns[j]) == k {
      assert vulns[j] in KeyedVulns(lib, vulns);
    }
  }

  lemma FirstOfKeyAppend(lib: Library, vulns: seq<Vuln>, v: Vuln, i: int)
    ensures FirstOfKey(lib, vulns + [v], i) <==>
            (if i == |vulns| then Keyed(lib, v) && !Seen(lib, vulns, VulnKey(lib, v)) else FirstOfKey(lib, vulns, i))
  {
    SeenMeans(lib, vulns, VulnKey(lib, v));
    assert (vulns + [v])[|vulns|] == v && forall j | 0 <= j < |vulns| :: (vulns + [v])[j] == vulns[j];
  }

  // Entries put behind others are first of their key only where those have none of it.
  lemma FirstOfKeyConcat(lib: Library, a: seq<Vuln>, b: seq<Vuln>, i: nat)
    ensures i < |a| ==> (FirstOfKey(lib, a + b, i) <==> FirstOfKey(lib, a, i))
    ensures i < |b| ==>
              (FirstOfKey(lib, a + b, |a| + i) <==> FirstOfKey(lib, b, i) && !Seen(lib, a, VulnKey(lib, b[i])))
  {
    var all := a + b;
    assert forall j | 0 <= j < |a| :: all[j] == a[j];
    assert forall j | 0 <= j < |b| :: all[|a| + j] == b[j];
    if i < |b| {
      SeenMeans(lib, a, VulnKey(lib, b[i]));
      if FirstOfKey(lib, all, |a| + i) {
        forall j | 0 <= j < i && Keyed(lib, b[j]) ensures VulnKey(lib, b[j]) != VulnKey(lib, b[i]) {
          assert all[|a| + j] == b[j];
        }
      }
    }
  }

  lemma SeenConcat(lib: Library, a: seq<Vuln>, b: seq<Vuln>, k: Key)
    ensures Seen(lib, a + b, k) <==> Seen(lib, a, k) || Seen(lib, b, k)
  {
    SeenMeans(lib, a, k);
    SeenMeans(lib, b, k);
    SeenMeans(lib, a + b, k);
    if j :| 0 <= j < |b| && Keyed(lib, b[j]) && VulnKey(lib, b[j]) == k {
      assert (a + b)[|a| + j] == b[j];
    }
    if j :| 0 <= j < |a| && Keyed(lib, a[j]) && VulnKey(lib, a[j]) == k {
      assert (a + b)[j] == a[j];
    }
  }

  // Behind the entries a, those of b that are compared agree with their exceptions.
  ghost predicate LaterAgree(lib: Library, excs: seq<Record>, a: seq<Vuln>, b: seq<Vuln>)
  {
    forall i {:trigger FirstOfKey(lib, b, i)} | FirstOfKey(lib, b, i) && !Seen(lib, a, VulnKey(lib, b[i])) ::
      Agrees(lib, excs, b[i])
  }

  lemma FirstsAgreeConcat(lib: Library, excs: seq<Record>, a: seq<Vuln>, b: seq<Vuln>)
    ensures FirstsAgree(lib, excs, a + b) <==> FirstsAgree(lib, excs, a) && LaterAgree(lib, excs, a, b)
  {
    var all := a + b;
    assert forall j | 0 <= j < |a| :: all[j] == a[j];
    assert forall j | 0 <= j < |b| :: all[|a| + j] == b[j];
    forall i: nat
      ensures i < |a| ==> (FirstOfKey(lib, all, i) <==> FirstOfKey(lib, a, i))
      ensures i < |b| ==>
                (FirstOfKey(lib, all, |a| + i) <==> FirstOfKey(lib, b, i) && !Seen(lib, a, VulnKey(lib, b[i])))
    {
      FirstOfKeyConcat(lib, a, b, i);
    }
    if FirstsAgree(lib, excs, all) {
      forall i | FirstOfKey(lib, a, i) ensures Agrees(lib, excs, a[i]) {
        assert FirstOfKey(lib, all, i);
      }
      forall i | FirstOfKey(lib, b, i) && !Seen(lib, a, VulnKey(lib, b[i])) ensures Agrees(lib, excs, b[i]) {
        assert FirstOfKey(lib, all, |a| + i);
      }
    }
    if FirstsAgree(lib, excs, a) && LaterAgree(lib, excs, a, b) {
      forall i | FirstOfKey(lib, all, i) ensures Agrees(lib, excs, all[i]) {
        if i >= |a| {
          assert FirstOfKey(lib, b, i - |a|) && all[|a| + (i - |a|)] == b[i - |a|];
        }
      }
    }
  }

  lemma FirstsAppend(lib: Library, vulns: seq<Vuln>, v: Vuln)
    ensures Firsts(lib, vulns + [v]) ==
            if Keyed(lib, v) && !Seen(lib, vulns, VulnKey(lib, v)) then Firsts(lib, vulns) + [v] else Firsts(lib, vulns)
  {
    SelectAppend((w: Vuln) => Keyed(lib, w), vulns, v);
    if Keyed(lib, v) {
      FirstByAppend(KeyedVulns(lib, vulns), (w: Vuln) => VulnKey(lib, w), v);
    } else {
      assert KeyedVulns(lib, vulns + [v]) == KeyedVulns(lib, vulns);
    }
  }

  ghost predicate IsFirst(lib: Library, vulns: seq<Vuln>, x: Vuln)
  {
    exists i {:trigger FirstOfKey(lib, vulns, i)} :: FirstOfKey(lib, vulns, i) && vulns[i] == x
  }

  // The deduplicated entries are the first entries of their keys.
  lemma {:induction false} FirstsAreFirst(lib: Library, vulns: seq<Vuln>, x: Vuln)
    ensures x in Firsts(lib, vulns) <==> IsFirst(lib, vulns, x)
  {
    if vulns == [] {
    } else {
      var n := |vulns| - 1;
      var init, v := vulns[..n], vulns[n];
      assert vulns == init + [v];
      FirstsAreFirst(lib, init, x);
      FirstsAppend(lib, init, v);
      FirstOfKeyAppend(lib, init, v, n);
      if IsFirst(lib, init, x) {
        var i :| FirstOfKey(lib, init, i) && init[i] == x;
        FirstOfKeyAppend(lib, init, v, i);
        assert FirstOfKey(lib, vulns, i) && vulns[i] == x;
      }
      if IsFirst(lib, vulns, x) {
        var i :| FirstOfKey(lib, vulns, i) && vulns[i] == x;
        FirstOfKeyAppend(lib, init, v, i);
        assert i != n ==> FirstOfKey(lib, init, i) && init[i] == x;
      }
    }
  }

  lemma SelectEmpty<T>(p: T -> bool, s: seq<T>)
    ensures Select(p, s) == [] <==> forall x | x in s :: !p(x)
  {
    SelectMembers(p, s);
    if forall x | x in s :: !p(x) {
      SelectNone(p, s);
    }
    forall x | x in s && p(x) ensures Select(p, s) != [] {
      assert x in Select(p, s);
    }
  }

  // Whether a vulnerability under a key that some entry started is excused does not depend on which entry it was.
  lemma FirstOfEachKey(lib: Library, vulns: seq<Vuln>, v: Vuln) returns (i: nat)
    requires v in vulns && Keyed(lib, v)
    ensures FirstOfKey(lib, vulns, i) && VulnKey(lib, vulns[i]) == VulnKey(lib, v)
  {
    var n :| 0 <= n < |vulns| && vulns[n] == v;
    i := FirstUpTo(lib, vulns, n);
  }

  lemma FirstUpTo(lib: Library, vulns: seq<Vuln>, n: nat) returns (i: nat)
    requires n < |vulns| && Keyed(lib, vulns[n])
    ensures FirstOfKey(lib, vulns, i) && VulnKey(lib, vulns[i]) == VulnKey(lib, vulns[n])
  {
    if j :| 0 <= j < n && Keyed(lib, vulns[j]) && VulnKey(lib, vulns[j]) == VulnKey(lib, vulns[n]) {
      i := FirstUpTo(lib, vulns, j);
    } else {
      i := n;
    }
  }

  // In a clean list the index answers for a key what the records say.
  lemma {:induction false} IndexAnswers(lib: Library, excs: seq<Record>, today: int, v: Vuln)
    requires CleanExceptions(lib, excs)
    ensures VulnKey(lib, v) in Index(lib, excs) && !Expired(lib, Index(lib, excs), today, v) <==>
            Excused(lib, excs, today, v)
    ensures VulnKey(lib, v) in Index(lib, excs) ==> (Mismatched(lib, Index(lib, excs), v) <==> !Agrees(lib, excs, v))
  {
    var k, index := VulnKey(lib, v), Index(lib, excs);
    IndexKeys(lib, excs, k);
    forall r | r in excs && ExceptionKey(lib, r) == k ensures k in index && index[k] == IndexEntry(lib, r) {
      IndexEntries(lib, excs, r);
    }
  }

  // Nothing is reported exactly when the entries are all excused and their firsts agree.
  lemma ReportEmpty(lib: Library, excs: seq<Record>, vulns: seq<Vuln>, today: int)
    requires CleanExceptions(lib, excs) && Scannable(lib, vulns)
    ensures NothingReported(ReportOf(lib, Index(lib, excs), today, vulns)) <==>
            AllExcused(lib, excs, vulns, today) && FirstsAgree(lib, excs, vulns)
  {
    var index, firsts := Index(lib, excs), Firsts(lib, vulns);
    SelectEmpty((v: Vuln) => Relevant(lib, v) && Advisory(lib, v) == "", vulns);
    SelectEmpty((v: Vuln) => VulnKey(lib, v) !in index, firsts);
    SelectEmpty((v: Vuln) => Mismatched(lib, index, v), firsts);
    SelectEmpty((v: Vuln) => Expired(lib, index, today, v), firsts);
    forall v ensures VulnKey(lib, v) in index && !Expired(lib, index, today, v) <==> Excused(lib, excs, today, v)
             ensures VulnKey(lib, v) in index ==> (Mismatched(lib, index, v) <==> !Agrees(lib, excs, v))
             ensures v in firsts <==> IsFirst(lib, vulns, v)
    {
      IndexAnswers(lib, excs, today, v);
      FirstsAreFirst(lib, vulns, v);
    }
    if AllExcused(lib, excs, vulns, today) && FirstsAgree(lib, excs, vulns) {
      forall v | v in firsts ensures Excused(lib, excs, today, v) && Agrees(lib, excs, v) {
        var i :| FirstOfKey(lib, vulns, i) && vulns[i] == v;
        assert vulns[i] in vulns;
      }
    }
    if NothingReported(ReportOf(lib, index, today, vulns)) {
      forall i | FirstOfKey(lib, vulns, i) ensures Agrees(lib, excs, vulns[i]) && Excused(lib, excs, today, vulns[i]) {
        assert vulns[i] in firsts;
      }
      forall v | v in vulns && Relevant(lib, v) ensures Advisory(lib, v) != "" && Excused(lib, excs, today, v) {
        assert Keyed(lib, v);
        var i := FirstOfEachKey(lib, vulns, v);
        assert Excused(lib, excs, today, vulns[i]);
      }
    }
  }

  ghost predicate Passes(lib: Library, lines: seq<string>, data: Json, today: int)
  {
    && Records(lines).Some? && AllVulns(lib, data).Some?
    && Clean(lib, Records(lines).value, AllVulns(lib, data).value, today)
  }

  /** main, from the lines of the exception file and the decoded audit report: the exit
      status is 0 exactly when neither file makes the program raise, every exception record
      is well formed with a key of its own, every relevant vulnerability has an advisory and
      an unexpired exception, and the first entry of each key agrees with its exception on
      the severity. */
  method Check(lib: Library, lines: seq<string>, data: Json, today: int) returns (status: int)
    ensures status == if Passes(lib, lines, data, today) then 0 else 1
  {
    var excs := ParseExceptions(lines);
    if excs.None? {
      return 1;
    }
    var index, errors := IndexExceptions(lib, excs.value);
    RefusalsEmpty(lib, excs.value);
    var vulns := IterVulns(lib, data);
    if vulns.None? {
      return 1;
    }
    var report := ScanVulns(lib, index, today, vulns.value);
    if report.None? {
      return 1;
    }
    if CleanExceptions(lib, excs.value) {
      ReportEmpty(lib, excs.value, vulns.value, today);
    }
    if errors != [] || !NothingReported(report.value) {
      return 1;
    }
    return 0;
  }
}
