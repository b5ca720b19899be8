/**
 * The Campaigns sync table, written the same way in both packs: every campaign the API
 * returns is renamed into a table row, then rows whose name marks them as drafts,
 * workflow-generated or archived campaigns are filtered out, keeping the API's order.
 */
module Campaigns {
  import opened JsonValues

  /** One element of `response.body.campaigns`. `kind` is the API's `type` field. */
  datatype CampaignData = CampaignData(
    name: string,
    kind: Json,
    id: Json,
    templateId: Json,
    workflowId: string,
    campaignState: Json,
    messageMedium: Json,
    createdAt: Json,
    updatedAt: Json,
    createdByUserId: Json,
    updatedByUserId: Json)

  /** One row of the Campaigns table. */
  datatype CampaignRow = CampaignRow(
    name: string,
    campaignType: Json,
    campaignId: Json,
    templateId: Json,
    workflowId: string,
    currentStatus: Json,
    sendMedium: Json,
    dateCreated: string,
    dateUpdated: string,
    createdBy: Json,
    updatedBy: Json)

  /** The `map` callback; `dateString(x)` stands for `new Date(x).toString()`. */
  function ToRow(c: CampaignData, dateString: Json -> string): CampaignRow
  {
    CampaignRow(c.name, c.kind, c.id, c.templateId, c.workflowId, c.campaignState,
                c.messageMedium, dateString(c.createdAt), dateString(c.updatedAt),
                c.createdByUserId, c.updatedByUserId)
  }

  // ---------------------------------------------------------------------------
  // String.prototype.includes
  // ---------------------------------------------------------------------------

  /** `sub` occurs in `s` starting at position `i`. */
  predicate OccursAt(s: string, sub: string, i: nat)
  {
    i + |sub| <= |s| && s[i..i + |sub|] == sub
  }

  /** `s.includes(sub)`: scan `s` from the left for a position where `sub` starts. */
  function Includes(s: string, sub: string): bool
  {
    if |sub| <= |s| && s[..|sub|] == sub then true
    else if s == [] then false
    else Includes(s[1..], sub)
  }

  /** The scan finds `sub` exactly when `sub` occurs somewhere in `s`; the empty string
      occurs in every string. */
  lemma {:induction false} IncludesIff(s: string, sub: string)
    ensures Includes(s, sub) <==> exists i: nat :: OccursAt(s, sub, i)
    ensures sub == [] ==> Includes(s, sub)
  {
    if |sub| <= |s| && s[..|sub|] == sub {
      assert OccursAt(s, sub, 0);
    } else if s == [] {
      assert forall i: nat :: !OccursAt(s, sub, i);
    } else {
      IncludesIff(s[1..], sub);
      if Includes(s, sub) {
        var j: nat :| OccursAt(s[1..], sub, j);
        assert s[j + 1..j + 1 + |sub|] == s[1..][j..j + |sub|];
        assert OccursAt(s, sub, j + 1);
      }
      if i: nat :| OccursAt(s, sub, i) {
        assert i != 0;
        assert s[1..][i - 1..i - 1 + |sub|] == s[i..i + |sub|];
        assert OccursAt(s[1..], sub, i - 1);
      }
    }
  }

  // ---------------------------------------------------------------------------
  // The filter
  // ---------------------------------------------------------------------------

  const Untitled := "Untitled"
  const FromPublishedWorkflow := "campaign from Published Workflow"
  const FromWorkflow := "campaign from Workflow"
  const Archived := "*ARCHIVED*"

  /** The `filter` callback: the row's name contains none of the four markers and not
      the row's own workflow id. */
  predicate Keep(row: CampaignRow)
  {
    && !Includes(row.name, Untitled)
    && !Includes(row.name, FromPublishedWorkflow)
    && !Includes(row.name, row.workflowId)
    && !Includes(row.name, FromWorkflow)
    && !Includes(row.name, Archived)
  }

  /** `sub` occurs nowhere in `s`. */
  ghost predicate Absent(s: string, sub: string)
  {
    forall i: nat :: !OccursAt(s, sub, i)
  }

  /** A row is kept exactly when none of the five strings occurs anywhere in its name. */
  lemma KeepIff(row: CampaignRow)
    ensures Keep(row) <==>
      && Absent(row.name, Untitled)
      && Absent(row.name, FromPublishedWorkflow)
      && Absent(row.name, row.workflowId)
      && Absent(row.name, FromWorkflow)
      && Absent(row.name, Archived)
  {
    IncludesIff(row.name, Untitled);
    IncludesIff(row.name, FromPublishedWorkflow);
    IncludesIff(row.name, row.workflowId);
    IncludesIff(row.name, FromWorkflow);
    IncludesIff(row.name, Archived);
  }

  /** Every name contains the empty string, so a campaign with an empty `workflowId` is
      never listed. */
  lemma EmptyWorkflowIdIsDropped(row: CampaignRow)
    requires row.workflowId == ""
    ensures !Keep(row)
  {
    IncludesIff(row.name, row.workflowId);
  }

  /** `rows.filter(Keep)`. */
  function FilterRows(rows: seq<CampaignRow>): seq<CampaignRow>
  {
    if rows == [] then []
    else (if Keep(rows[0]) then [rows[0]] else []) + FilterRows(rows[1..])
  }

  /** `xs` is `ys` with some elements removed, the rest in their original order. */
  predicate IsSubsequence<T(==)>(xs: seq<T>, ys: seq<T>)
  {
    if xs == [] then true
    else if ys == [] then false
    else (xs[0] == ys[0] && IsSubsequence(xs[1..], ys[1..])) || IsSubsequence(xs, ys[1..])
  }

  /** The filter keeps the rows that pass, in order, each as often as it occurs in the
      input, and drops every other row. A subsequence with those multiplicities is
      unique, so this determines the result. */
  lemma {:induction false} FilterRowsSpec(rows: seq<CampaignRow>)
    ensures IsSubsequence(FilterRows(rows), rows)
    ensures forall row :: multiset(FilterRows(rows))[row] ==
              if Keep(row) then multiset(rows)[row] else 0
  {
    if rows != [] {
      FilterRowsSpec(rows[1..]);
      assert rows == [rows[0]] + rows[1..];
      assert multiset(rows) == multiset{rows[0]} + multiset(rows[1..]);
      var rest := FilterRows(rows[1..]);
      if Keep(rows[0]) {
        assert FilterRows(rows) == [rows[0]] + rest;
        assert FilterRows(rows)[1..] == rest;
        assert multiset(FilterRows(rows)) == multiset{rows[0]} + multiset(rest);
      } else {
        assert FilterRows(rows) == rest;
        if rest != [] {
          assert IsSubsequence(rest, rows[1..]);
        }
      }
    }
  }

  /** The filter distributes over concatenation: whether a row is kept does not depend
      on its neighbours. */
  lemma {:induction false} FilterRowsAppend(a: seq<CampaignRow>, b: seq<CampaignRow>)
    ensures FilterRows(a + b) == FilterRows(a) + FilterRows(b)
  {
    if a != [] {
      assert (a + b)[1..] == a[1..] + b;
      FilterRowsAppend(a[1..], b);
    } else {
      assert a + b == b;
    }
  }

  // ---------------------------------------------------------------------------
  // The sync formula
  // ---------------------------------------------------------------------------

  /** The rows before filtering, one per campaign, in the API's order. */
  function MapRows(campaigns: seq<CampaignData>, dateString: Json -> string): seq<CampaignRow>
  {
    seq(|campaigns|, i requires 0 <= i < |campaigns| => ToRow(campaigns[i], dateString))
  }

  /** `SyncCampaigns`: map, then filter. */
  function SyncCampaigns(campaigns: seq<CampaignData>, dateString: Json -> string): seq<CampaignRow>
  {
    FilterRows(MapRows(campaigns, dateString))
  }

  /** The table lists, in the API's order, the renamed copy of exactly those campaigns
      whose name passes the filter; a campaign is listed iff its name contains none of the
      markers nor its workflow id, and nothing else is listed. */
  lemma SyncCampaignsSpec(campaigns: seq<CampaignData>, dateString: Json -> string)
    ensures |MapRows(campaigns, dateString)| == |campaigns|
    ensures IsSubsequence(SyncCampaigns(campaigns, dateString), MapRows(campaigns, dateString))
    ensures forall i :: 0 <= i < |campaigns| ==>
              (ToRow(campaigns[i], dateString) in SyncCampaigns(campaigns, dateString) <==>
               Keep(ToRow(campaigns[i], dateString)))
    ensures forall row :: row in SyncCampaigns(campaigns, dateString) ==>
              Keep(row) && exists i :: 0 <= i < |campaigns| && row == ToRow(campaigns[i], dateString)
  {
    var mapped := MapRows(campaigns, dateString);
    FilterRowsSpec(mapped);
    var r := SyncCampaigns(campaigns, dateString);
    forall i | 0 <= i < |campaigns|
      ensures ToRow(campaigns[i], dateString) in r <==> Keep(ToRow(campaigns[i], dateString))
    {
      assert mapped[i] == ToRow(campaigns[i], dateString);
      assert mapped[i] in multiset(mapped);
    }
    forall row | row in r
      ensures Keep(row) && exists i :: 0 <= i < |campaigns| && row == ToRow(campaigns[i], dateString)
    {
      assert row in multiset(r);
      assert row in multiset(mapped);
      var i :| 0 <= i < |mapped| && mapped[i] == row;
    }
  }
}
