/** What the first loop makes of the exception records: one index entry or one error each. */
module AuditIndexing {
  import opened PyText
  import opened AuditExceptions
  import opened AuditData
  import opened AuditGate
  import opened AuditVerdict
  import opened AuditAcceptance

  predicate HasKey(lib: Library, r: Record, k: Key)
  {
    Usable(lib, r) && Strip(r["package"]) == k.0 && lib.lower(Strip(r["advisory"])) == k.1
  }

  // Record i is the first usable one of this key.
  ghost predicate FirstUsable(lib: Library, excs: seq<Record>, i: nat, k: Key)
  {
    i < |excs| && HasKey(lib, excs[i], k) && forall j | 0 <= j < i :: !HasKey(lib, excs[j], k)
  }

  lemma KeyOfRecord(lib: Library, r: Record, k: Key)
    ensures HasKey(lib, r, k) <==> WellFormed(lib, r) && ExceptionKey(lib, r) == k
    ensures HasKey(lib, r, k) ==>
              && IndexEntry(lib, r).severity == lib.lower(Strip(r["severity"]))
              && IndexEntry(lib, r).expiresOn == lib.fromIso(r["expires_on"]).value
  {
    UsableIsWellFormed(lib, r);
  }

  // One more record is indexed under its key, if it is usable and the key is new.
  lemma IndexAppend(lib: Library, excs: seq<Record>, r: Record, k: Key)
    ensures var before, after := Index(lib, excs), Index(lib, excs + [r]);
      if HasKey(lib, r, k) && k !in before then after == before[k := IndexEntry(lib, r)] && WellFormed(lib, r)
      else (k in after <==> k in before) && (k in after ==> after[k] == before[k])
  {
    assert (excs + [r])[..|excs|] == excs;
    KeyOfRecord(lib, r, k);
  }

  lemma FirstUsableAppend(lib: Library, excs: seq<Record>, r: Record, i: nat, k: Key)
    requires FirstUsable(lib, excs + [r], i, k)
    ensures if i < |excs| then FirstUsable(lib, excs, i, k) && (excs + [r])[i] == excs[i]
            else HasKey(lib, r, k) && forall j | 0 <= j < |excs| :: !HasKey(lib, excs[j], k)
  {
    var all := excs + [r];
    forall j | 0 <= j < i && j < |excs| ensures !HasKey(lib, excs[j], k) {
      assert all[j] == excs[j];
    }
  }

  lemma {:induction false} IndexedKeys(lib: Library, excs: seq<Record>, k: Key)
    ensures k in Index(lib, excs) <==> exists i: nat | i < |excs| :: HasKey(lib, excs[i], k)
  {
    IndexKeys(lib, excs, k);
    forall r ensures HasKey(lib, r, k) <==> WellFormed(lib, r) && ExceptionKey(lib, r) == k {
      KeyOfRecord(lib, r, k);
    }
  }

  lemma {:induction false} FirstIsIndexed(lib: Library, excs: seq<Record>, k: Key, i: nat)
    requires FirstUsable(lib, excs, i, k)
    ensures k in Index(lib, excs) && WellFormed(lib, excs[i]) && Index(lib, excs)[k] == IndexEntry(lib, excs[i])
  {
    var n := |excs| - 1;
    assert excs == excs[..n] + [excs[n]];
    IndexAppend(lib, excs[..n], excs[n], k);
    FirstUsableAppend(lib, excs[..n], excs[n], i, k);
    KeyOfRecord(lib, excs[i], k);
    if i < n {
      FirstIsIndexed(lib, excs[..n], k, i);
    } else {
      IndexedKeys(lib, excs[..n], k);
    }
  }

  /** The index holds, for each key, the severity and the date of its first usable record. */
  lemma IndexIsFirst(lib: Library, excs: seq<Record>, k: Key)
    ensures k in Index(lib, excs) <==> exists i: nat | i < |excs| :: HasKey(lib, excs[i], k)
    ensures forall i: nat | FirstUsable(lib, excs, i, k) ::
              && k in Index(lib, excs)
              && Index(lib, excs)[k].severity == lib.lower(Strip(excs[i]["severity"]))
              && Index(lib, excs)[k].expiresOn == lib.fromIso(excs[i]["expires_on"]).value
  {
    IndexedKeys(lib, excs, k);
    forall i: nat | FirstUsable(lib, excs, i, k)
      ensures k in Index(lib, excs) && WellFormed(lib, excs[i]) && Index(lib, excs)[k] == IndexEntry(lib, excs[i])
    {
      FirstIsIndexed(lib, excs, k, i);
      KeyOfRecord(lib, excs[i], k);
    }
  }

  lemma NewKey<K, V>(m: map<K, V>, k: K, v: V)
    requires k !in m
    ensures |m[k := v]| == |m| + 1
  {
    assert m[k := v].Keys == m.Keys + {k};
    assert |m[k := v]| == |m[k := v].Keys| && |m| == |m.Keys|;
  }

  lemma ReportedOnce(lib: Library, index: map<Key, Indexed>, r: Record)
    ensures Refusal(lib, index, r).None? <==> WellFormed(lib, r) && ExceptionKey(lib, r) !in index
  {
  }

  /** Each record is indexed or reported, never both. */
  lemma {:induction false} IndexedOrReported(lib: Library, excs: seq<Record>)
    ensures |Index(lib, excs)| + |Refusals(lib, excs)| == |excs|
  {
    if excs == [] {
    } else {
      var n := |excs| - 1;
      IndexedOrReported(lib, excs[..n]);
      var before, r := Index(lib, excs[..n]), excs[n];
      ReportedOnce(lib, before, r);
      if WellFormed(lib, r) && ExceptionKey(lib, r) !in before {
        NewKey(before, ExceptionKey(lib, r), IndexEntry(lib, r));
      }
    }
  }

  /** Why a record is reported: its unfilled fields, else its date, else a blank package or
      advisory, else its key, which an earlier record has. */
  lemma RefusalReason(lib: Library, index: map<Key, Indexed>, r: Record)
    ensures Refusal(lib, index, r).None? <==> exists k :: HasKey(lib, r, k) && k !in index
    ensures match Refusal(lib, index, r)
            case None => true
            case Some(MissingFields(fields, package)) =>
              && fields != {} && package == (if "package" in r then r["package"] else "")
              && forall f :: f in fields <==>
                   !HasField(r, f) && f in {"package", "advisory", "severity", "mitigation", "expires_on"}
            case Some(InvalidDate(package)) =>
              AllFields(r) && package == r["package"] && lib.fromIso(r["expires_on"]).None?
            case Some(MissingValue) =>
              && AllFields(r) && lib.fromIso(r["expires_on"]).Some?
              && (Strip(r["package"]) == "" || lib.lower(Strip(r["advisory"])) == "")
            case Some(Duplicate(k)) => HasKey(lib, r, k) && k in index
  {
    UsableIsWellFormed(lib, r);
    KeyOfRecord(lib, r, ExceptionKey(lib, r));
    assert forall f | f in REQUIRED :: f in Missing(r) <==> !HasField(r, f);
    assert Missing(r) == {} ==> AllFields(r) by {
      assert "package" in REQUIRED && "advisory" in REQUIRED && "severity" in REQUIRED;
      assert "mitigation" in REQUIRED && "expires_on" in REQUIRED;
    }
  }
}
