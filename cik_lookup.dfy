/** Company name to CIK, as `get_cik_from_company_name` does it over the SEC ticker registry.
    The HTTP request is not modelled: its status code and the registry's entries, in the
    order the JSON object lists them, are inputs. */
module CikLookup {
  import opened Wrappers
  import opened Text

  /** One value of the registry object: `{"cik_str": ..., "ticker": ..., "title": ...}`. */
  datatype RegistryEntry = RegistryEntry(cikStr: nat, ticker: string, title: string)

  const StatusOk: int := 200

  /** The case-insensitive title comparison of the lookup loop. */
  predicate TitleMatches(e: RegistryEntry, companyName: string) {
    Lower(e.title) == Lower(companyName)
  }

  /** Entry `k` is the first whose title matches. */
  predicate IsFirstMatch(entries: seq<RegistryEntry>, companyName: string, k: int) {
    && 0 <= k < |entries|
    && TitleMatches(entries[k], companyName)
    && forall j :: 0 <= j < k ==> !TitleMatches(entries[j], companyName)
  }

  /** The registry scan, entry by entry from the front. */
  function FindCik(entries: seq<RegistryEntry>, companyName: string): Option<string>
    decreases |entries|
  {
    if entries == [] then None
    else if TitleMatches(entries[0], companyName) then Some(DecimalString(entries[0].cikStr))
    else FindCik(entries[1..], companyName)
  }

  /** What the lookup returns: `None` on a status other than 200, else the scan's answer. */
  function Lookup(status: int, entries: seq<RegistryEntry>, companyName: string): Option<string> {
    if status != StatusOk then None else FindCik(entries, companyName)
  }

  method GetCikFromCompanyName(status: int, entries: seq<RegistryEntry>, companyName: string)
    returns (r: Option<string>)
    ensures r == Lookup(status, entries, companyName)
  {
    if status != StatusOk {
      return None;
    }
    var i := 0;
    while i < |entries|
      invariant 0 <= i <= |entries|
      invariant FindCik(entries[i..], companyName) == FindCik(entries, companyName)
    {
      if Lower(entries[i].title) == Lower(companyName) {
        return Some(DecimalString(entries[i].cikStr));
      }
      assert entries[i..][1..] == entries[i + 1..];
      i := i + 1;
    }
    return None;
  }

  /** The scan answers with the CIK of the first matching entry, and with `None` exactly
      when no entry matches. */
  lemma {:induction false} FindCikFirstMatch(entries: seq<RegistryEntry>, companyName: string)
    ensures FindCik(entries, companyName).None? <==>
              forall k :: 0 <= k < |entries| ==> !TitleMatches(entries[k], companyName)
    ensures forall k :: IsFirstMatch(entries, companyName, k) ==>
              FindCik(entries, companyName) == Some(DecimalString(entries[k].cikStr))
    decreases |entries|
  {
    if entries != [] && !TitleMatches(entries[0], companyName) {
      var rest := entries[1..];
      FindCikFirstMatch(rest, companyName);
      forall k | IsFirstMatch(entries, companyName, k)
        ensures FindCik(entries, companyName) == Some(DecimalString(entries[k].cikStr))
      {
        assert IsFirstMatch(rest, companyName, k - 1);
      }
      if FindCik(entries, companyName).None? {
        forall k | 0 <= k < |entries|
          ensures !TitleMatches(entries[k], companyName)
        {
          if k > 0 { assert entries[k] == rest[k - 1]; }
        }
      }
    }
  }

  /** The lookup: `Some` exactly when the registry answered 200 and some title matches, and
      then it is `str(cik_str)` of the first matching entry. */
  lemma LookupSpec(status: int, entries: seq<RegistryEntry>, companyName: string)
    ensures Lookup(status, entries, companyName).Some? <==>
              status == StatusOk &&
              exists k :: 0 <= k < |entries| && TitleMatches(entries[k], companyName)
    ensures forall k :: status == StatusOk && IsFirstMatch(entries, companyName, k) ==>
              Lookup(status, entries, companyName) == Some(DecimalString(entries[k].cikStr))
  {
    FindCikFirstMatch(entries, companyName);
  }

  /** A found CIK is a non-empty digit string that reads back as the entry's `cik_str`. */
  lemma FoundCikIsDecimal(status: int, entries: seq<RegistryEntry>, companyName: string)
    requires Lookup(status, entries, companyName).Some?
    ensures var c := Lookup(status, entries, companyName).value;
      |c| > 0 && AllDigits(c) &&
      exists k :: 0 <= k < |entries| && TitleMatches(entries[k], companyName) &&
                  DecimalValue(c) == entries[k].cikStr
  {
    FindCikFirstMatch(entries, companyName);
    var k := FirstMatchIndex(entries, companyName);
    DecimalRoundTrip(entries[k].cikStr);
  }

  /** The index of the first matching entry, when there is one. */
  function FirstMatchIndex(entries: seq<RegistryEntry>, companyName: string): (k: nat)
    requires exists k :: 0 <= k < |entries| && TitleMatches(entries[k], companyName)
    ensures IsFirstMatch(entries, companyName, k)
    decreases |entries|
  {
    if TitleMatches(entries[0], companyName) then 0
    else
      assert exists k :: 0 <= k < |entries[1..]| && TitleMatches(entries[1..][k], companyName) by {
        var k :| 0 <= k < |entries| && TitleMatches(entries[k], companyName);
        assert entries[1..][k - 1] == entries[k];
      }
      var j := FirstMatchIndex(entries[1..], companyName);
      assert forall i :: 1 <= i <= j ==> entries[i] == entries[1..][i - 1];
      j + 1
  }
}
