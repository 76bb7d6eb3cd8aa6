/** What `get_SEC_filings` promises about the records it returns: which indices it takes,
    how many, that each record's fields come from one index, how the URL is formed, when
    it raises, and that the loop ignores everything after the limit is reached. */
module ListingProperties {
  import opened Wrappers
  import opened Text
  import opened CikLookup
  import opened FilingLister

  /** Every lookup the record for index `i` makes succeeds. */
  predicate EntryComplete(recent: Arrays, i: nat) {
    && "accessionNumber" in recent && i < |recent["accessionNumber"]|
    && "form" in recent && i < |recent["form"]|
    && "filingDate" in recent && i < |recent["filingDate"]|
    && i < |Get(recent, "reportDate", [""])|
    && i < |Get(recent, "primaryDocument", [])|
    && i < |Get(recent, "primaryDocDescription", [])|
  }

  /** Record `f` holds, field by field, slot `i` of the arrays, and its URL is the archive
      path of that slot's accession number (dashes removed) and primary document. */
  predicate RecordOf(recent: Arrays, cik: string, i: nat, f: Filing) {
    && EntryComplete(recent, i)
    && f.accessionNumber == recent["accessionNumber"][i]
    && f.formType == recent["form"][i]
    && f.filingDate == recent["filingDate"][i]
    && f.reportDate == Get(recent, "reportDate", [""])[i]
    && f.primaryDoc == Get(recent, "primaryDocument", [])[i]
    && f.primaryDocDescription == Get(recent, "primaryDocDescription", [])[i]
    && f.filingUrl == ArchiveUrl(cik, StripDashes(recent["accessionNumber"][i]), f.primaryDoc)
  }

  /** The indices with a requested form type, as a set. */
  function MatchSet(form: seq<string>, types: seq<string>, n: nat): set<nat>
    requires n <= |form|
  {
    set i: nat | i < n && form[i] in types
  }

  function Min(a: int, b: int): int {
    if a <= b then a else b
  }

  /** A record is built exactly when every field lookup succeeds, and then it is slot `i`. */
  lemma BuildRecordSpec(recent: Arrays, cik: string, i: nat)
    ensures BuildRecord(recent, cik, i).Success? <==> EntryComplete(recent, i)
    ensures BuildRecord(recent, cik, i).Success? ==>
              RecordOf(recent, cik, i, BuildRecord(recent, cik, i).value)
  {
  }

  /** Building a run of records succeeds exactly when each one does, and then yields them in order. */
  lemma {:induction false} BuildAllSpec(recent: Arrays, cik: string, idx: seq<nat>)
    ensures BuildAll(recent, cik, idx).Success? <==>
              forall k :: 0 <= k < |idx| ==> BuildRecord(recent, cik, idx[k]).Success?
    ensures BuildAll(recent, cik, idx).Success? ==>
              var fs := BuildAll(recent, cik, idx).value;
              |fs| == |idx| &&
              forall k :: 0 <= k < |idx| ==> BuildRecord(recent, cik, idx[k]) == Success(fs[k])
    decreases |idx|
  {
    if idx != [] {
      var init := idx[..|idx| - 1];
      BuildAllSpec(recent, cik, init);
      assert forall k :: 0 <= k < |init| ==> init[k] == idx[k];
    }
  }

  /** A failing run fails with the error of its first failing record. */
  lemma {:induction false} BuildAllFirstFailure(recent: Arrays, cik: string, idx: seq<nat>)
    requires BuildAll(recent, cik, idx).Failure?
    ensures exists k :: 0 <= k < |idx| &&
              BuildRecord(recent, cik, idx[k]) == Failure(BuildAll(recent, cik, idx).error) &&
              forall j :: 0 <= j < k ==> BuildRecord(recent, cik, idx[j]).Success?
    decreases |idx|
  {
    var init := idx[..|idx| - 1];
    var last := idx[|idx| - 1];
    if BuildAll(recent, cik, init).Failure? {
      assert BuildAll(recent, cik, idx) == BuildAll(recent, cik, init);
      BuildAllFirstFailure(recent, cik, init);
      var k :| 0 <= k < |init| &&
               BuildRecord(recent, cik, init[k]) == Failure(BuildAll(recent, cik, init).error) &&
               forall j :: 0 <= j < k ==> BuildRecord(recent, cik, init[j]).Success?;
      assert forall j :: 0 <= j <= k ==> init[j] == idx[j];
    } else {
      BuildAllSpec(recent, cik, init);
      assert BuildRecord(recent, cik, last) == Failure(BuildAll(recent, cik, idx).error);
      assert forall j :: 0 <= j < |init| ==> init[j] == idx[j];
      assert idx[|init|] == last;
    }
  }

  /** Each matching index below `n` is a slot below `n` with a requested form. */
  lemma {:induction false} MatchingBounds(form: seq<string>, types: seq<string>, n: nat)
    requires n <= |form|
    ensures forall k :: 0 <= k < |Matching(form, types, n)| ==>
              Matching(form, types, n)[k] < n && form[Matching(form, types, n)[k]] in types
    decreases n
  {
    if n > 0 {
      MatchingBounds(form, types, n - 1);
    }
  }

  /** The matching indices below `n` are ascending and leave no matching slot out. */
  lemma {:induction false} MatchingSpec(form: seq<string>, types: seq<string>, n: nat)
    requires n <= |form|
    ensures forall k, l :: 0 <= k < l < |Matching(form, types, n)| ==>
              Matching(form, types, n)[k] < Matching(form, types, n)[l]
    ensures forall i :: 0 <= i < n && form[i] in types ==> i in Matching(form, types, n)
    decreases n
  {
    if n > 0 {
      MatchingSpec(form, types, n - 1);
      MatchingBounds(form, types, n - 1);
    }
  }

  /** As many indices match as there are slots with a requested form. */
  lemma {:induction false} MatchingCount(form: seq<string>, types: seq<string>, n: nat)
    requires n <= |form|
    ensures |Matching(form, types, n)| == |MatchSet(form, types, n)|
    decreases n
  {
    if n > 0 {
      MatchingCount(form, types, n - 1);
      if form[n - 1] in types {
        assert MatchSet(form, types, n) == MatchSet(form, types, n - 1) + {n - 1};
      } else {
        assert MatchSet(form, types, n) == MatchSet(form, types, n - 1);
      }
    }
  }

  /** The indices the loop takes are the first `min(limit, matches)` matching indices. */
  lemma SelectedPrefix(form: seq<string>, types: seq<string>, numFilings: int)
    ensures var m := Matching(form, types, |form|); var s := Selected(form, types, numFilings);
      |s| == Min(Limit(numFilings), |MatchSet(form, types, |form|)|) && s == m[..|s|]
  {
    MatchingCount(form, types, |form|);
  }

  predicate Ascending(s: seq<nat>) {
    forall k, l :: 0 <= k < l < |s| ==> s[k] < s[l]
  }

  /** Every matching slot up to the last index in `s` is in `s`. */
  predicate NoMatchSkipped(form: seq<string>, types: seq<string>, s: seq<nat>) {
    forall i :: 0 <= i < |form| && form[i] in types && |s| > 0 && i <= s[|s| - 1] ==> i in s
  }

  /** The indices the loop takes are ascending, each has a requested form, and no matching
      slot before the last one taken is skipped. */
  lemma SelectedSpec(form: seq<string>, types: seq<string>, numFilings: int)
    ensures forall k :: 0 <= k < |Selected(form, types, numFilings)| ==>
              Selected(form, types, numFilings)[k] < |form| &&
              form[Selected(form, types, numFilings)[k]] in types
    ensures Ascending(Selected(form, types, numFilings))
    ensures NoMatchSkipped(form, types, Selected(form, types, numFilings))
  {
    var m := Matching(form, types, |form|);
    var s := Selected(form, types, numFilings);
    assert forall k :: 0 <= k < |s| ==> s[k] == m[k];
    MatchingBounds(form, types, |form|);
    MatchingSpec(form, types, |form|);
    forall i | 0 <= i < |form| && form[i] in types && |s| > 0 && i <= s[|s| - 1]
      ensures i in s
    {
      var j :| 0 <= j < |m| && m[j] == i;
      assert m[|s| - 1] == s[|s| - 1];
      assert j < |s|;
      assert s[j] == i;
    }
  }

  /** The number of records is `min(num_filings, number of matching slots)`. */
  lemma ListingCount(recent: Arrays, cik: string, types: seq<string>, numFilings: int)
    requires Listing(recent, cik, types, numFilings).Success?
    ensures |Listing(recent, cik, types, numFilings).value| ==
              Min(Limit(numFilings), |MatchSet(FormArray(recent), types, |FormArray(recent)|)|)
  {
    BuildAllLength(recent, cik, Selected(FormArray(recent), types, numFilings));
    SelectedPrefix(FormArray(recent), types, numFilings);
  }

  /** A limit of zero or less, or a missing `form` array, gives the empty list. */
  lemma EmptyListing(recent: Arrays, cik: string, types: seq<string>, numFilings: int)
    requires numFilings <= 0 || "form" !in recent
    ensures Listing(recent, cik, types, numFilings) == Success([])
  {
  }

  /** The records: record `k` is slot `s[k]` of the arrays for the `k`-th selected index `s[k]`,
      and its form is a requested one. */
  lemma ListingRecords(recent: Arrays, cik: string, types: seq<string>, numFilings: int)
    requires Listing(recent, cik, types, numFilings).Success?
    ensures var fs := Listing(recent, cik, types, numFilings).value;
            var s := Selected(FormArray(recent), types, numFilings);
      && |fs| == |s|
      && (forall k :: 0 <= k < |fs| ==> RecordOf(recent, cik, s[k], fs[k]))
      && (forall k :: 0 <= k < |fs| ==> fs[k].formType in types)
  {
    var fs := Listing(recent, cik, types, numFilings).value;
    var s := Selected(FormArray(recent), types, numFilings);
    BuildAllSpec(recent, cik, s);
    SelectedSpec(FormArray(recent), types, numFilings);
    forall k | 0 <= k < |fs|
      ensures RecordOf(recent, cik, s[k], fs[k]) && fs[k].formType in types
    {
      BuildRecordSpec(recent, cik, s[k]);
    }
  }

  /** The listing raises exactly when some selected slot lacks a field; slots after the limit,
      however ragged, do not matter. */
  lemma ListingSucceedsIff(recent: Arrays, cik: string, types: seq<string>, numFilings: int)
    ensures var s := Selected(FormArray(recent), types, numFilings);
      Listing(recent, cik, types, numFilings).Success? <==>
        forall k :: 0 <= k < |s| ==> EntryComplete(recent, s[k])
  {
    var s := Selected(FormArray(recent), types, numFilings);
    BuildAllSpec(recent, cik, s);
    forall k | 0 <= k < |s| {
      BuildRecordSpec(recent, cik, s[k]);
    }
  }

  /** The exception raised is the one of the first selected slot whose record fails. */
  lemma ListingFailure(recent: Arrays, cik: string, types: seq<string>, numFilings: int)
    requires Listing(recent, cik, types, numFilings).Failure?
    ensures var s := Selected(FormArray(recent), types, numFilings);
      exists k :: 0 <= k < |s| &&
        BuildRecord(recent, cik, s[k]) == Failure(Listing(recent, cik, types, numFilings).error) &&
        forall j :: 0 <= j < k ==> EntryComplete(recent, s[j])
  {
    var s := Selected(FormArray(recent), types, numFilings);
    BuildAllFirstFailure(recent, cik, s);
    forall j | 0 <= j < |s| {
      BuildRecordSpec(recent, cik, s[j]);
    }
  }

  /** Array `key` is present and has at least `n` slots. */
  predicate Covers(recent: Arrays, key: string, n: nat) {
    key in recent && |recent[key]| >= n
  }

  /** Index-aligned arrays, every one at least as long as `form`, never raise. */
  lemma AlignedArraysSucceed(recent: Arrays, cik: string, types: seq<string>, numFilings: int)
    requires "form" in recent
    requires Covers(recent, "accessionNumber", |recent["form"]|)
    requires Covers(recent, "filingDate", |recent["form"]|)
    requires Covers(recent, "reportDate", |recent["form"]|)
    requires Covers(recent, "primaryDocument", |recent["form"]|)
    requires Covers(recent, "primaryDocDescription", |recent["form"]|)
    ensures Listing(recent, cik, types, numFilings).Success?
  {
    var s := Selected(FormArray(recent), types, numFilings);
    SelectedSpec(FormArray(recent), types, numFilings);
    forall k | 0 <= k < |s|
      ensures EntryComplete(recent, s[k])
    {
      assert s[k] < |recent["form"]|;
    }
    ListingSucceedsIff(recent, cik, types, numFilings);
  }

  /** Without a `reportDate` array the default `[""]` covers slot 0 only: a selected slot past
      the first raises `IndexError`. */
  lemma MissingReportDateRaises(recent: Arrays, cik: string, types: seq<string>, numFilings: int)
    requires "reportDate" !in recent
    requires exists k :: 0 <= k < |Selected(FormArray(recent), types, numFilings)| &&
                         Selected(FormArray(recent), types, numFilings)[k] > 0
    ensures Listing(recent, cik, types, numFilings).Failure?
  {
    ListingSucceedsIff(recent, cik, types, numFilings);
  }

  /** A larger limit only extends the list: the records for a smaller limit are its prefix. */
  lemma ListingPrefix(recent: Arrays, cik: string, types: seq<string>, small: int, large: int)
    requires Limit(small) <= Limit(large)
    requires Listing(recent, cik, types, large).Success?
    ensures Listing(recent, cik, types, small).Success?
    ensures var fs := Listing(recent, cik, types, small).value;
            var gs := Listing(recent, cik, types, large).value;
      |fs| <= |gs| && fs == gs[..|fs|]
  {
    var form := FormArray(recent);
    var s, t := Selected(form, types, small), Selected(form, types, large);
    SelectedPrefix(form, types, small);
    SelectedPrefix(form, types, large);
    assert s == t[..|s|];
    BuildAllPrefix(recent, cik, s, t);
  }

  /** The records built for a prefix of the indices are the prefix of the records. */
  lemma {:induction false} BuildAllPrefix(recent: Arrays, cik: string, p: seq<nat>, q: seq<nat>)
    requires |p| <= |q| && q[..|p|] == p
    requires BuildAll(recent, cik, q).Success?
    ensures BuildAll(recent, cik, p).Success?
    ensures |BuildAll(recent, cik, p).value| <= |BuildAll(recent, cik, q).value|
    ensures BuildAll(recent, cik, p).value ==
            BuildAll(recent, cik, q).value[..|BuildAll(recent, cik, p).value|]
    decreases |q|
  {
    if |q| > |p| {
      var q' := q[..|q| - 1];
      assert q'[..|p|] == p;
      BuildAllPrefix(recent, cik, p, q');
      var fs, gs := BuildAll(recent, cik, q').value, BuildAll(recent, cik, q).value;
      assert gs[..|fs|] == fs;
    } else {
      assert q == p;
    }
  }

  lemma {:induction false} MatchingExtend(form: seq<string>, extra: seq<string>, types: seq<string>, n: nat)
    requires n <= |form|
    ensures Matching(form + extra, types, n) == Matching(form, types, n)
    decreases n
  {
    if n > 0 {
      MatchingExtend(form, extra, types, n - 1);
    }
  }

  /** Collection stops once the limit is reached: slots appended after that point, whatever
      their form, leave the result unchanged. */
  lemma LaterEntriesIgnored(recent: Arrays, cik: string, types: seq<string>, numFilings: int,
                            extra: seq<string>)
    requires "form" in recent
    requires |Matching(recent["form"], types, |recent["form"]|)| >= Limit(numFilings)
    ensures Listing(recent["form" := recent["form"] + extra], cik, types, numFilings) ==
            Listing(recent, cik, types, numFilings)
  {
    var form := recent["form"];
    var recent' := recent["form" := form + extra];
    MatchingExtend(form, extra, types, |form|);
    MatchingPrefix(form + extra, types, |form|, |form + extra|);
    MatchingBounds(form, types, |form|);
    var s := Selected(form, types, numFilings);
    assert Selected(form + extra, types, numFilings) == s;
    forall k | 0 <= k < |s|
      ensures BuildRecord(recent', cik, s[k]) == BuildRecord(recent, cik, s[k])
    {
      assert Subscript(recent', "form", s[k]) == Subscript(recent, "form", s[k]);
    }
    BuildAllCongruent(recent, recent', cik, s);
  }

  lemma {:induction false} BuildAllCongruent(recent: Arrays, recent': Arrays, cik: string, idx: seq<nat>)
    requires forall k :: 0 <= k < |idx| ==> BuildRecord(recent', cik, idx[k]) == BuildRecord(recent, cik, idx[k])
    ensures BuildAll(recent', cik, idx) == BuildAll(recent, cik, idx)
    decreases |idx|
  {
    if idx != [] {
      var init := idx[..|idx| - 1];
      assert forall k :: 0 <= k < |init| ==> init[k] == idx[k];
      BuildAllCongruent(recent, recent', cik, init);
    }
  }

  /** An unknown company, or a registry request answered with another status than 200, makes
      `get_SEC_filings` raise: it is never an empty list. */
  lemma UnknownCompanyRaises(status: int, registry: seq<RegistryEntry>, companyName: string,
                             fetch: string -> Submissions, numFilings: int)
    requires status != StatusOk ||
             forall k :: 0 <= k < |registry| ==> !TitleMatches(registry[k], companyName)
    ensures SecFilings(status, registry, companyName, fetch, numFilings) == Failure(NoCik)
  {
    LookupSpec(status, registry, companyName);
  }

  /** Every record is a 10-K whose URL is the archive path under `cik` of its own accession
      number (dashes removed) and primary document. */
  predicate TenKsUnder(fs: seq<Filing>, cik: string) {
    forall j :: 0 <= j < |fs| ==>
      fs[j].formType == "10-K" &&
      fs[j].filingUrl == ArchiveUrl(cik, StripDashes(fs[j].accessionNumber), fs[j].primaryDoc)
  }

  /** The collection loop as `get_SEC_filings` runs it, for the 10-K form type only. */
  lemma TenKListing(recent: Arrays, cik: string, numFilings: int)
    requires Listing(recent, cik, FilingTypes, numFilings).Success?
    ensures var fs := Listing(recent, cik, FilingTypes, numFilings).value;
      |fs| <= Limit(numFilings) && TenKsUnder(fs, cik)
  {
    ListingRecords(recent, cik, FilingTypes, numFilings);
    ListingCount(recent, cik, FilingTypes, numFilings);
  }

  /** `get_SEC_filings` end to end: every record is a 10-K whose URL is the archive path under
      the CIK `str(cik_str).zfill(10)` of the first registry entry with a matching title (at
      least ten digits, denoting that `cik_str`), and there are at most `num_filings` records. */
  lemma SecFilingsSpec(status: int, registry: seq<RegistryEntry>, companyName: string,
                       fetch: string -> Submissions, numFilings: int)
    requires SecFilings(status, registry, companyName, fetch, numFilings).Success?
    ensures var fs := SecFilings(status, registry, companyName, fetch, numFilings).value;
      && |fs| <= Limit(numFilings)
      && exists k, cik ::
           && IsFirstMatch(registry, companyName, k)
           && cik == ZFill(DecimalString(registry[k].cikStr), CikWidth)
           && SecFilings(status, registry, companyName, fetch, numFilings) ==
                Listing(RecentOf(fetch(SubmissionsUrl(cik))), cik, FilingTypes, numFilings)
           && |cik| >= 10 && AllDigits(cik) && DecimalValue(cik) == registry[k].cikStr
           && TenKsUnder(fs, cik)
  {
    var fs := SecFilings(status, registry, companyName, fetch, numFilings).value;
    LookupSpec(status, registry, companyName);
    FindCikFirstMatch(registry, companyName);
    var k := FirstMatchIndex(registry, companyName);
    var cik := ZFill(DecimalString(registry[k].cikStr), CikWidth);
    var recent := RecentOf(fetch(SubmissionsUrl(cik)));
    assert SecFilings(status, registry, companyName, fetch, numFilings) ==
           Listing(recent, cik, FilingTypes, numFilings);
    PaddedCik(registry[k].cikStr);
    TenKListing(recent, cik, numFilings);
    assert IsFirstMatch(registry, companyName, k) && TenKsUnder(fs, cik);
  }

  /** Called without `num_filings`, `get_SEC_filings` lists at most five filings. */
  lemma DefaultListsAtMostFive(status: int, registry: seq<RegistryEntry>, companyName: string,
                               fetch: string -> Submissions)
    requires SecFilings(status, registry, companyName, fetch).Success?
    ensures |SecFilings(status, registry, companyName, fetch).value| <= 5
  {
    SecFilingsSpec(status, registry, companyName, fetch, DefaultNumFilings);
  }

  /** An accession number is three dash-separated groups (`0000320193-23-000106`); its URL
      segment is the three groups run together (`000032019323000106`). */
  lemma {:induction false} AccessionSegment(x: string, y: string, z: string)
    requires '-' !in x && '-' !in y && '-' !in z
    ensures StripDashes(x + "-" + y + "-" + z) == x + y + z
  {
    var dz := "-" + z;
    var ydz := y + dz;
    var dydz := "-" + ydz;
    assert x + "-" + y + "-" + z == x + dydz;
    StripDashesKeepsPrefix(x, dydz);
    StripDashesDropsDash(ydz);
    StripDashesKeepsPrefix(y, dz);
    StripDashesDropsDash(z);
    StripDashesNoDash(z);
    assert StripDashes(x + dydz) == x + (y + z);
  }
}
