/** Open issues: a mutable set of unique descriptions that rejects duplicates. */
module CollectionsSet {

  /** The set after `add(d)`, and whether `d` was new. */
  function Added(s: set<string>, d: string): (r: (bool, set<string>))
    ensures r.0 <==> d !in s
    ensures d in r.1 && s <= r.1 && r.1 - s <= {d}
    ensures r.0 ==> |r.1| == |s| + 1
    ensures !r.0 ==> r.1 == s
  {
    (d !in s, s + {d})
  }

  /** The file's top-level `openIssues` set. */
  class Issues {
    var openIssues: set<string>

    constructor ()
      ensures openIssues == {"uniqueDescr1", "uniqueDescr2", "uniqueDescr3"}
    {
      openIssues := {"uniqueDescr1", "uniqueDescr2", "uniqueDescr3"};
    }

    /** `addIssue`: `MutableSet.add`, true exactly when the description was new. */
    method AddIssue(uniqueDesc: string) returns (added: bool)
      modifies this
      ensures (added, openIssues) == Added(old(openIssues), uniqueDesc)
    {
      added := uniqueDesc !in openIssues;
      openIssues := openIssues + {uniqueDesc};
    }
  }

  /** `getStatusLog`: the line for an accepted and for a rejected issue. */
  function GetStatusLog(isAdded: bool): (line: string)
    ensures isAdded ==> line == "registered correctly."
    ensures !isAdded ==> line == "marked as duplicate and rejected."
  {
    if isAdded then "registered correctly." else "marked as duplicate and rejected."
  }

  /** The two outcomes are told apart by their log line. */
  lemma StatusLogDistinguishes(a: bool, b: bool)
    ensures GetStatusLog(a) == GetStatusLog(b) <==> a == b
  {
    assert GetStatusLog(true)[0] != GetStatusLog(false)[0];
  }

  /** Adding the same description a second time is always rejected and
      changes nothing. */
  lemma SecondAddRejected(s: set<string>, d: string)
    ensures !Added(Added(s, d).1, d).0
    ensures Added(Added(s, d).1, d).1 == Added(s, d).1
  {
  }

  /** `main`: a new description is registered, one already present is
      rejected; each outcome is reported through `getStatusLog`. */
  method Demo() returns (first: bool, second: bool, line1: string, line2: string)
    ensures first && line1 == "Issue " + "uniqueDescr4" + " " + "registered correctly."
    ensures !second && line2 == "Issue " + "uniqueDescr2" + " " + "marked as duplicate and rejected."
  {
    var issues := new Issues();
    var aNewIssue := "uniqueDescr4";
    var anIssueAlreadyIn := "uniqueDescr2";
    first := issues.AddIssue(aNewIssue);
    assert aNewIssue !in {"uniqueDescr1", "uniqueDescr2", "uniqueDescr3"} by {
      assert aNewIssue[11] != "uniqueDescr1"[11];
      assert aNewIssue[11] != "uniqueDescr2"[11];
      assert aNewIssue[11] != "uniqueDescr3"[11];
    }
    line1 := "Issue " + aNewIssue + " " + GetStatusLog(first);
    second := issues.AddIssue(anIssueAlreadyIn);
    line2 := "Issue " + anIssueAlreadyIn + " " + GetStatusLog(second);
  }
}
