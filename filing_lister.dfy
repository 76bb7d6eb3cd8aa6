/** `get_SEC_filings`: resolve the company's CIK, fetch its submissions document and turn the
    parallel arrays of `filings.recent` into at most `num_filings` filing records of the
    requested form types. The two HTTP requests are not modelled: the registry's answer and
    the submissions document (as a function of the requested URL) are inputs. */
module FilingLister {
  import opened Wrappers
  import opened Text
  import opened CikLookup

  /** The `filings.recent` object: field name to its array, one slot per filing. */
  type Arrays = map<string, seq<string>>

  /** The submissions document; only the `filings` -> `recent` path is given a type. */
  type Submissions = map<string, map<string, Arrays>>

  /** One entry of the returned list, a dict with seven keys in the source. */
  datatype Filing = Filing(
    accessionNumber: string,
    formType: string,
    filingDate: string,
    reportDate: string,
    filingUrl: string,
    primaryDoc: string,
    primaryDocDescription: string)

  /** The exceptions the source lets escape. */
  datatype Error =
    | NoCik                                  // `None.zfill` when the lookup finds nothing
    | MissingField(field: string)            // `KeyError` on `filings[field]`
    | IndexOutOfRange(field: string, index: nat)  // `IndexError` on `...[i]`

  const FilingTypes: seq<string> := ["10-K"]
  const CikWidth: int := 10
  /** The default of `num_filings`. */
  const DefaultNumFilings: int := 5
  const ArchiveBase: string := "https://www.sec.gov/Archives/edgar/data/"

  function SubmissionsUrl(cik: string): string {
    "https://data.sec.gov/submissions/CIK" + cik + ".json"
  }

  function ArchiveUrl(cik: string, accessionSegment: string, primaryDoc: string): string {
    ArchiveBase + cik + "/" + accessionSegment + "/" + primaryDoc
  }

  /** `data.get("filings", {}).get("recent", {})`. */
  function RecentOf(data: Submissions): Arrays {
    if "filings" in data && "recent" in data["filings"] then data["filings"]["recent"] else map[]
  }

  /** `filings.get(key, default)`. */
  function Get(recent: Arrays, key: string, default: seq<string>): seq<string> {
    if key in recent then recent[key] else default
  }

  /** `filings[key][i]`. */
  function Subscript(recent: Arrays, key: string, i: nat): Result<string, Error> {
    if key !in recent then Failure(MissingField(key))
    else if i < |recent[key]| then Success(recent[key][i])
    else Failure(IndexOutOfRange(key, i))
  }

  /** `filings.get(key, default)[i]`. */
  function GetAt(recent: Arrays, key: string, default: seq<string>, i: nat): Result<string, Error> {
    var a := Get(recent, key, default);
    if i < |a| then Success(a[i]) else Failure(IndexOutOfRange(key, i))
  }

  /** The record built for index `i`, its fields evaluated in the order the dict literal
      lists them, so the first failing lookup is the exception raised. */
  function BuildRecord(recent: Arrays, cik: string, i: nat): Result<Filing, Error> {
    var accession :- Subscript(recent, "accessionNumber", i);
    var form :- Subscript(recent, "form", i);
    var filingDate :- Subscript(recent, "filingDate", i);
    var reportDate :- GetAt(recent, "reportDate", [""], i);
    // the URL and `primary_docs` read the same slot; the first read is the one that can fail
    var primaryDoc :- GetAt(recent, "primaryDocument", [], i);
    var description :- GetAt(recent, "primaryDocDescription", [], i);
    Success(Filing(accession, form, filingDate, reportDate,
                   ArchiveUrl(cik, StripDashes(accession), primaryDoc), primaryDoc, description))
  }

  /** The records for the indices `idx`, built in order; the first failure is the result. */
  function BuildAll(recent: Arrays, cik: string, idx: seq<nat>): Result<seq<Filing>, Error>
    decreases |idx|
  {
    if idx == [] then Success([])
    else
      var done :- BuildAll(recent, cik, idx[..|idx| - 1]);
      var f :- BuildRecord(recent, cik, idx[|idx| - 1]);
      Success(done + [f])
  }

  /** The indices below `n` whose form is one of `types`, in ascending order. */
  function Matching(form: seq<string>, types: seq<string>, n: nat): seq<nat>
    requires n <= |form|
  {
    if n == 0 then []
    else Matching(form, types, n - 1) + (if form[n - 1] in types then [n - 1] else [])
  }

  /** `num_filings` as a count: a negative limit collects nothing. */
  function Limit(numFilings: int): nat {
    if numFilings < 0 then 0 else numFilings
  }

  /** The first `Limit(numFilings)` matching indices: those whose records the loop builds. */
  function Selected(form: seq<string>, types: seq<string>, numFilings: int): seq<nat> {
    var m := Matching(form, types, |form|);
    if |m| <= Limit(numFilings) then m else m[..Limit(numFilings)]
  }

  function FormArray(recent: Arrays): seq<string> {
    Get(recent, "form", [])
  }

  /** What the collection loop of `get_SEC_filings` produces from `filings.recent`. */
  function Listing(recent: Arrays, cik: string, types: seq<string>, numFilings: int)
    : Result<seq<Filing>, Error>
  {
    BuildAll(recent, cik, Selected(FormArray(recent), types, numFilings))
  }

  /** What `get_SEC_filings` returns or raises. */
  function SecFilings(status: int, registry: seq<RegistryEntry>, companyName: string,
                      fetch: string -> Submissions, numFilings: int := DefaultNumFilings)
    : Result<seq<Filing>, Error>
  {
    match Lookup(status, registry, companyName)
    case None => Failure(NoCik)
    case Some(found) =>
      var cik := ZFill(found, CikWidth);
      Listing(RecentOf(fetch(SubmissionsUrl(cik))), cik, FilingTypes, numFilings)
  }

  lemma {:induction false} MatchingPrefix(form: seq<string>, types: seq<string>, i: nat, n: nat)
    requires i <= n <= |form|
    ensures |Matching(form, types, i)| <= |Matching(form, types, n)|
    ensures Matching(form, types, n)[..|Matching(form, types, i)|] == Matching(form, types, i)
    decreases n - i
  {
    if i < n {
      MatchingPrefix(form, types, i, n - 1);
      var mi, mp := Matching(form, types, i), Matching(form, types, n - 1);
      assert Matching(form, types, n)[..|mp|] == mp;
      assert mp[..|mi|] == mi;
    }
  }

  lemma {:induction false} BuildAllLength(recent: Arrays, cik: string, idx: seq<nat>)
    requires BuildAll(recent, cik, idx).Success?
    ensures |BuildAll(recent, cik, idx).value| == |idx|
    decreases |idx|
  {
    if idx != [] {
      BuildAllLength(recent, cik, idx[..|idx| - 1]);
    }
  }

  /** Once a record fails, every longer run of the loop fails with the same error. */
  lemma {:induction false} BuildAllFailurePersists(recent: Arrays, cik: string, p: seq<nat>, q: seq<nat>)
    requires |p| <= |q| && q[..|p|] == p
    requires BuildAll(recent, cik, p).Failure?
    ensures BuildAll(recent, cik, q) == BuildAll(recent, cik, p)
    decreases |q|
  {
    if |q| > |p| {
      var q' := q[..|q| - 1];
      assert q'[..|p|] == p;
      BuildAllFailurePersists(recent, cik, p, q');
    } else {
      assert q == p;
    }
  }

  /** One matching index more: its record is appended. */
  lemma BuildAllStep(recent: Arrays, cik: string, form: seq<string>, types: seq<string>, i: nat)
    requires i < |form| && form[i] in types
    requires BuildAll(recent, cik, Matching(form, types, i)).Success?
    requires BuildRecord(recent, cik, i).Success?
    ensures BuildAll(recent, cik, Matching(form, types, i + 1)) ==
              Success(BuildAll(recent, cik, Matching(form, types, i)).value + [BuildRecord(recent, cik, i).value])
  {
  }

  /** The loop stops (at the end of the arrays or at the limit) with exactly the selected indices. */
  lemma LoopExit(form: seq<string>, types: seq<string>, numFilings: int, i: nat)
    requires i <= |form|
    requires |Matching(form, types, i)| <= Limit(numFilings)
    requires i == |form| || |Matching(form, types, i)| >= numFilings
    ensures Selected(form, types, numFilings) == Matching(form, types, i)
  {
    MatchingPrefix(form, types, i, |form|);
  }

  /** A failing record ends the run with its error. */
  lemma BuildAllStepFailure(recent: Arrays, cik: string, idx: seq<nat>, i: nat)
    requires BuildAll(recent, cik, idx).Success?
    requires BuildRecord(recent, cik, i).Failure?
    ensures BuildAll(recent, cik, idx + [i]) == Failure(BuildRecord(recent, cik, i).error)
  {
  }

  /** While under the limit, the matching indices seen so far begin the selected ones. */
  lemma SelectedExtends(form: seq<string>, types: seq<string>, numFilings: int, n: nat)
    requires n <= |form|
    requires |Matching(form, types, n)| <= Limit(numFilings)
    ensures |Matching(form, types, n)| <= |Selected(form, types, numFilings)|
    ensures Selected(form, types, numFilings)[..|Matching(form, types, n)|] == Matching(form, types, n)
  {
    MatchingPrefix(form, types, n, |form|);
  }

  /** A record failing within the limit makes the whole listing fail with its error. */
  lemma LoopFailure(recent: Arrays, cik: string, form: seq<string>, types: seq<string>, numFilings: int, i: nat)
    requires i < |form| && form[i] in types
    requires |Matching(form, types, i)| < numFilings
    requires BuildAll(recent, cik, Matching(form, types, i)).Success?
    requires BuildRecord(recent, cik, i).Failure?
    ensures BuildAll(recent, cik, Selected(form, types, numFilings)) ==
              Failure(BuildRecord(recent, cik, i).error)
  {
    var m := Matching(form, types, i);
    assert Matching(form, types, i + 1) == m + [i];
    BuildAllStepFailure(recent, cik, m, i);
    SelectedExtends(form, types, numFilings, i + 1);
    BuildAllFailurePersists(recent, cik, m + [i], Selected(form, types, numFilings));
  }

  /** The collection loop of `get_SEC_filings` (the lines after the submissions fetch). */
  method ProcessFilings(recent: Arrays, cik: string, types: seq<string>, numFilings: int)
    returns (r: Result<seq<Filing>, Error>)
    ensures r == Listing(recent, cik, types, numFilings)
  {
    var form := FormArray(recent);
    var processed: seq<Filing> := [];
    var i := 0;
    while i < |form|
      invariant 0 <= i <= |form|
      invariant |Matching(form, types, i)| <= Limit(numFilings)
      invariant BuildAll(recent, cik, Matching(form, types, i)) == Success(processed)
    {
      BuildAllLength(recent, cik, Matching(form, types, i));
      if |processed| >= numFilings {
        break;
      }
      if form[i] in types {
        var record := BuildRecord(recent, cik, i);
        if record.Failure? {
          LoopFailure(recent, cik, form, types, numFilings, i);
          return Failure(record.error);
        }
        BuildAllStep(recent, cik, form, types, i);
        processed := processed + [record.value];
      } else {
        assert Matching(form, types, i + 1) == Matching(form, types, i);
      }
      i := i + 1;
    }
    BuildAllLength(recent, cik, Matching(form, types, i));
    LoopExit(form, types, numFilings, i);
    r := Success(processed);
  }

  method GetSecFilings(status: int, registry: seq<RegistryEntry>, companyName: string,
                       fetch: string -> Submissions, numFilings: int := DefaultNumFilings)
    returns (r: Result<seq<Filing>, Error>)
    ensures r == SecFilings(status, registry, companyName, fetch, numFilings)
  {
    var found := GetCikFromCompanyName(status, registry, companyName);
    if found.None? {
      return Failure(NoCik);
    }
    var cik := ZFill(found.value, CikWidth);
    var data := fetch(SubmissionsUrl(cik));
    var recent := RecentOf(data);
    r := ProcessFilings(recent, cik, FilingTypes, numFilings);
  }
}
