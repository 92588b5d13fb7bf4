/** The content-rubrics screen: the search and campaign filter over the
    rubrics, and the distinct campaign ids of its dropdown. */
module ContentRubricsManager {
  import opened Common

  /** A row of `contents_rubrics` (the columns the screen reads). */
  datatype ContentRubric = ContentRubric(rubricId: int, rubricName: string, campaignId: string)

  /** The search box: the lower-cased term occurs in the rubric name, the
      rubric id or the campaign id. */
  predicate MatchesSearch(r: ContentRubric, search: string)
  {
    var q := ToLower(search);
    || Includes(ToLower(r.rubricName), q)
    || Includes(IntToString(r.rubricId), q)
    || Includes(ToLower(r.campaignId), q)
  }

  predicate Matches(r: ContentRubric, search: string, campaignFilter: string)
  {
    MatchesSearch(r, search) && MatchesChoice(campaignFilter, r.campaignId)
  }

  /** filteredRubrics: the rubrics, in order, that match the search and the
      campaign filter; an empty search under "all" keeps every one. */
  function FilteredRubrics(rubrics: seq<ContentRubric>, search: string, campaignFilter: string): (r: seq<ContentRubric>)
    ensures IsSubsequence(r, rubrics)
    ensures forall x :: x in r <==> x in rubrics && Matches(x, search, campaignFilter)
    ensures search == "" && campaignFilter == "all" ==> r == rubrics
  {
    FilterIsSubsequence(rubrics, (x: ContentRubric) => Matches(x, search, campaignFilter));
    Filter(rubrics, (x: ContentRubric) => Matches(x, search, campaignFilter))
  }

  function CampaignOf(r: ContentRubric): string { r.campaignId }

  /** uniqueCampaigns: the rubrics' campaign ids, each once, in order of
      first appearance. */
  function UniqueCampaigns(rubrics: seq<ContentRubric>): (r: seq<string>)
    ensures NoDuplicates(r)
    ensures IsSubsequence(r, MapSeq(rubrics, CampaignOf))
    ensures forall c :: c in r <==> exists x :: x in rubrics && x.campaignId == c
  {
    DistinctIsSubsequence(MapSeq(rubrics, CampaignOf));
    forall c ensures c in MapSeq(rubrics, CampaignOf) <==> exists x :: x in rubrics && x.campaignId == c {
      MapSeqMembers(rubrics, CampaignOf, c);
    }
    Distinct(MapSeq(rubrics, CampaignOf))
  }

  /** Every campaign the dropdown offers keeps at least one rubric under an
      empty search, and any other campaign keeps none under any search. */
  lemma CampaignChoiceSelects(rubrics: seq<ContentRubric>, c: string, search: string)
    requires c != "all"
    ensures c in UniqueCampaigns(rubrics) ==> FilteredRubrics(rubrics, "", c) != []
    ensures c !in UniqueCampaigns(rubrics) ==> FilteredRubrics(rubrics, search, c) == []
  {
    if c in UniqueCampaigns(rubrics) {
      var x :| x in rubrics && x.campaignId == c;
      IncludesEmpty(ToLower(x.rubricName));
      assert Matches(x, "", c);
      assert x in FilteredRubrics(rubrics, "", c);
    } else {
      FilterNone(rubrics, (x: ContentRubric) => Matches(x, search, c));
    }
  }
}
