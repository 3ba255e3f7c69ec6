/** `modules/cve_query.py`: selecting the CVE records whose description mentions a
    version string. */
module CveQuery {
  import opened Wrappers
  import opened Text

  /** The "description" entry of a record, as JSON gives it: absent, a string, a
      list or an object (whose string elements or keys `in` compares against), or
      a null, number or boolean, which `in` refuses. */
  datatype Desc = Missing | Text(s: string) | Items(elements: seq<string>) | NonText

  /** An entry of the CVE list: a JSON object with its identifier and its
      description, or any other JSON value, which has no `get`. */
  datatype Cve = Cve(id: string, description: Desc) | NotRecord

  /** The entry makes the loop raise: `cve.get` on a value that is not a dict
      (AttributeError), or `norm_version in desc` on a null, number or boolean
      description (TypeError). */
  predicate Raises(c: Cve)
  {
    c.NotRecord? || c.description.NonText?
  }

  /** The test `norm_version in desc`, with `desc = cve.get("description", "")`
      and the version stripped first: a substring test on text, element
      equality on a list or object. */
  predicate Mentions(c: Cve, version: string)
  {
    && c.Cve?
    && match c.description
       case Missing => Contains("", Strip(version))
       case Text(desc) => Contains(desc, Strip(version))
       case Items(elements) => Strip(version) in elements
       case NonText => false
  }

  /** A description that is a string or absent. */
  predicate Textual(c: Cve)
  {
    c.Cve? && (c.description.Missing? || c.description.Text?)
  }

  /** The records that mention the version, in their original order. */
  function Filtered(cves: seq<Cve>, version: string): seq<Cve>
  {
    if cves == [] then []
    else
      var init := Filtered(cves[..|cves| - 1], version);
      if Mentions(cves[|cves| - 1], version) then init + [cves[|cves| - 1]] else init
  }

  /** `filter_cves_by_version(cve_list, version)`: the exception of the first
      entry that raises propagates, otherwise the records that mention the
      version are returned. */
  method FilterCvesByVersion(cveList: seq<Cve>, version: string) returns (filtered: seq<Cve>, raised: bool)
    ensures raised <==> exists k :: 0 <= k < |cveList| && Raises(cveList[k])
    ensures !raised ==> filtered == Filtered(cveList, version)
  {
    var normVersion := Strip(version);
    filtered := [];
    for i := 0 to |cveList|
      invariant filtered == Filtered(cveList[..i], version)
      invariant forall k :: 0 <= k < i ==> !Raises(cveList[k])
    {
      var cve := cveList[i];
      if cve.NotRecord? || cve.description.NonText? {
        assert Raises(cveList[i]);
        return filtered, true;
      }
      var found := match cve.description
        case Missing => Contains("", normVersion)
        case Text(desc) => Contains(desc, normVersion)
        case Items(elements) => normVersion in elements
        case NonText => false;
      if found {
        filtered := filtered + [cve];
      }
      assert cveList[..i + 1][..i] == cveList[..i];
    }
    assert cveList[..|cveList|] == cveList;
    raised := false;
  }

  /** `a` can be obtained from `b` by deleting elements. */
  predicate Subsequence<T(==)>(a: seq<T>, b: seq<T>)
    decreases |b|
  {
    if a == [] then true
    else if b == [] then false
    else if a[|a| - 1] == b[|b| - 1] then Subsequence(a[..|a| - 1], b[..|b| - 1])
    else Subsequence(a, b[..|b| - 1])
  }

  /** The output is the input with some records deleted, and the order kept. */
  lemma {:induction false} FilteredIsSubsequence(cves: seq<Cve>, version: string)
    ensures Subsequence(Filtered(cves, version), cves)
  {
    if cves != [] {
      var init := cves[..|cves| - 1];
      FilteredIsSubsequence(init, version);
      var f := Filtered(init, version);
      if Mentions(cves[|cves| - 1], version) {
        assert (f + [cves[|cves| - 1]])[..|f|] == f;
      } else {
        if f != [] {
          SubsequenceDropLast(f, init, cves);
        }
      }
    }
  }

  /** A subsequence of a prefix is a subsequence of the whole. */
  lemma {:induction false} SubsequenceDropLast<T>(a: seq<T>, init: seq<T>, b: seq<T>)
    requires b != [] && init == b[..|b| - 1]
    requires a != [] && Subsequence(a, init)
    ensures Subsequence(a, b)
    decreases |b|, |a|
  {
    if a[|a| - 1] == b[|b| - 1] {
      SubsequenceShorten(a, init);
    }
  }

  /** Dropping the last element of a subsequence keeps it a subsequence. */
  lemma {:induction false} SubsequenceShorten<T>(a: seq<T>, b: seq<T>)
    requires a != [] && Subsequence(a, b)
    ensures Subsequence(a[..|a| - 1], b)
    decreases |b|, |a|
  {
    var a' := a[..|a| - 1];
    assert b != [];
    var b' := b[..|b| - 1];
    if a[|a| - 1] == b[|b| - 1] {
      if a' != [] {
        SubsequenceDropLast(a', b', b);
      }
    } else {
      SubsequenceShorten(a, b');
      if a' != [] {
        SubsequenceDropLast(a', b', b);
      }
    }
  }

  /** A record is in the output exactly when it is in the input and mentions the
      version. */
  lemma {:induction false} FilteredMembers(cves: seq<Cve>, version: string, c: Cve)
    ensures c in Filtered(cves, version) <==> c in cves && Mentions(c, version)
  {
    if cves != [] {
      var init := cves[..|cves| - 1];
      FilteredMembers(init, version, c);
      assert cves == init + [cves[|cves| - 1]];
    }
  }

  /** Every record of the input is kept exactly when it mentions the version. */
  lemma {:induction false} FilteredKeeps(cves: seq<Cve>, version: string)
    ensures forall c :: c in Filtered(cves, version) ==> Mentions(c, version)
    ensures forall k :: 0 <= k < |cves| && Mentions(cves[k], version) ==> cves[k] in Filtered(cves, version)
  {
    forall c | c in Filtered(cves, version)
      ensures Mentions(c, version)
    {
      FilteredMembers(cves, version, c);
    }
    forall k | 0 <= k < |cves| && Mentions(cves[k], version)
      ensures cves[k] in Filtered(cves, version)
    {
      FilteredMembers(cves, version, cves[k]);
    }
  }

  /** Every string contains the empty string. */
  lemma {:induction false} ContainsEmpty(s: string)
    ensures Contains(s, "")
  {
    assert OccursAt(s, "", 0);
  }

  /** A version that is blank once stripped keeps every record whose description
      is a string or absent. */
  lemma {:induction false} BlankVersionKeepsAll(cves: seq<Cve>, version: string)
    requires Strip(version) == ""
    requires forall k :: 0 <= k < |cves| ==> Textual(cves[k])
    ensures Filtered(cves, version) == cves
  {
    if cves != [] {
      var last := cves[|cves| - 1];
      BlankVersionKeepsAll(cves[..|cves| - 1], version);
      if last.description.Text? {
        ContainsEmpty(last.description.s);
      } else {
        ContainsEmpty("");
      }
      assert cves == cves[..|cves| - 1] + [last];
    }
  }

  /** A list description is tested element by element: a list holding the text
      that mentions the version does not mention it, while that text does. */
  lemma {:induction false} ListIsNotText(id: string, desc: string, version: string)
    requires Contains(desc, Strip(version)) && desc != Strip(version)
    ensures Mentions(Cve(id, Text(desc)), version)
    ensures !Mentions(Cve(id, Items([desc])), version)
  {
  }

  /** Filtering when every record mentions the version changes nothing. */
  lemma {:induction false} AllMentionKeepsAll(cves: seq<Cve>, version: string)
    requires forall k :: 0 <= k < |cves| ==> Mentions(cves[k], version)
    ensures Filtered(cves, version) == cves
  {
    if cves != [] {
      AllMentionKeepsAll(cves[..|cves| - 1], version);
      assert cves == cves[..|cves| - 1] + [cves[|cves| - 1]];
    }
  }

  /** Filtering a filtered list again with the same version changes nothing. */
  lemma {:induction false} FilterIdempotent(cves: seq<Cve>, version: string)
    ensures Filtered(Filtered(cves, version), version) == Filtered(cves, version)
  {
    var f := Filtered(cves, version);
    FilteredKeeps(cves, version);
    assert forall k :: 0 <= k < |f| ==> f[k] in f;
    AllMentionKeepsAll(f, version);
  }
}
