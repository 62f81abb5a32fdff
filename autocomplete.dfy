/** The search box with suggestions (AutocompleteSearch.jsx): a term is
    matched either against a list the caller hands in, by a case-insensitive
    prefix of one display field, or by asking the main process, whose answer
    is passed in as a value. */
module Autocomplete {
  import opened Wrappers
  import opened Text
  import opened Seqs
  import opened Js
  import Router

  /** `item[field].toLowerCase().startsWith(lowerTerm)` for an item whose
      field holds text. */
  function StartsWithTerm(field: string, lowerTerm: string): Obj -> bool {
    item => Get(item, field).Str? && StartsWith(Lower(Get(item, field).s), lowerTerm)
  }

  /** Every item's display field holds text, so `toLowerCase` never throws. */
  predicate AllText(items: seq<Obj>, field: string) {
    forall i :: 0 <= i < |items| ==> Get(items[i], field).Str?
  }

  /** The local branch: `suggestionsList.filter(...)`, or `None` when some
      item's display field is not text and the call throws a TypeError. */
  function LocalFilter(items: seq<Obj>, field: string, term: string): (r: Option<seq<Obj>>)
    ensures r.None? <==> !AllText(items, field)
    ensures r.Some? ==>
              && (forall x :: x in r.value <==>
                    x in items && Get(x, field).Str? && StartsWith(Lower(Get(x, field).s), Lower(term)))
              && IsSubsequence(r.value, items)
              && |r.value| == Count(items, StartsWithTerm(field, Lower(term)))
  {
    if !AllText(items, field) then None
    else
      var kept := Filter(items, StartsWithTerm(field, Lower(term)));
      FilterElements(items, StartsWithTerm(field, Lower(term)));
      FilterIsSubsequence(items, StartsWithTerm(field, Lower(term)));
      FilterLength(items, StartsWithTerm(field, Lower(term)));
      Some(kept)
  }

  /** The match ignores case in the term: the term typed in capitals finds
      what the lower-case term finds. */
  lemma {:induction false} LocalFilterIgnoresTermCase(items: seq<Obj>, field: string, term: string)
    ensures LocalFilter(items, field, Upper(term)) == LocalFilter(items, field, term)
    ensures LocalFilter(items, field, Lower(term)) == LocalFilter(items, field, term)
  {
    assert Lower(Upper(term)) == Lower(term);
    assert Lower(Lower(term)) == Lower(term);
  }

  /** Two terms that differ only in case give the same suggestions. */
  lemma SameLowerSameSuggestions(items: seq<Obj>, field: string, term1: string, term2: string)
    requires Lower(term1) == Lower(term2)
    ensures LocalFilter(items, field, term1) == LocalFilter(items, field, term2)
  {
  }

  /** The match ignores case in the item: two items whose display fields
      differ only in case are kept or dropped together. */
  lemma ItemCaseIgnored(x: Obj, y: Obj, field: string, term: string)
    requires Get(x, field).Str? && Get(y, field).Str?
    requires Lower(Get(x, field).s) == Lower(Get(y, field).s)
    ensures StartsWithTerm(field, Lower(term))(x) == StartsWithTerm(field, Lower(term))(y)
  {
  }

  /** One more typed character can only narrow the local suggestions. */
  lemma {:induction false} LongerTermNarrows(items: seq<Obj>, field: string, term: string, c: char)
    ensures var longer := LocalFilter(items, field, term + [c]);
            var shorter := LocalFilter(items, field, term);
            longer.Some? <==> shorter.Some?
    ensures var longer := LocalFilter(items, field, term + [c]);
            var shorter := LocalFilter(items, field, term);
            longer.Some? ==> forall x :: x in longer.value ==> x in shorter.value
  {
    var longer := LocalFilter(items, field, term + [c]);
    if longer.Some? {
      forall x | x in longer.value ensures x in LocalFilter(items, field, term).value {
        var l := Lower(Get(x, field).s);
        assert Lower(term + [c]) == Lower(term) + [LowerChar(c)];
        assert l[..|term|] == l[..|term| + 1][..|term|];
      }
    }
  }

  /** What the main process answered the `api-request` with, or that the
      call threw. */
  datatype RemoteReply =
    | Replied(items: seq<Obj>)
    | RepliedError(message: string)
    | NoReply
    | Threw

  /** The request the remote branch sends: a GET of the endpoint with the
      term as `sok`. */
  function SearchParams(term: string): (p: Obj)
    ensures p.Keys == {"sok"} && Get(p, "sok") == Str(term)
  {
    map["sok" := Str(term)]
  }

  /** On the two endpoints the pages give this box, the request reaches
      the matching search with the typed term as its prefix. */
  lemma SearchRequestRoutes(term: string, decode: string -> Option<string>)
    ensures Router.HandleRequest(Str("GET"), Str(Router.ELEVER), Some(SearchParams(term)), None, decode)
              == Ok(Router.GetElever(Str(term)))
    ensures Router.HandleRequest(Str("GET"), Str(Router.FAGGRUPPER), Some(SearchParams(term)), None, decode)
              == Ok(Router.GetFaggrupper(Str(term)))
  {
    Router.FixedRoutes(Some(SearchParams(term)), None, decode);
  }

  class AutocompleteSearch {
    /** The props: a remote endpoint, a local list, the field shown and
        matched, and whether the parent passed `onSelect`. */
    const apiEndpoint: Option<string>
    const suggestionsList: Option<seq<Obj>>
    const displayField: string
    const hasOnSelect: bool

    var suggestions: seq<Obj>
    var loading: bool
    /** The suggestions handed to `onSelect`, oldest first. */
    var selected: seq<Obj>

    constructor(apiEndpoint: Option<string>, suggestionsList: Option<seq<Obj>>, displayField: string,
                hasOnSelect: bool)
      ensures this.apiEndpoint == apiEndpoint && this.suggestionsList == suggestionsList
      ensures this.displayField == displayField && this.hasOnSelect == hasOnSelect
      ensures suggestions == [] && !loading && selected == []
    {
      this.apiEndpoint := apiEndpoint;
      this.suggestionsList := suggestionsList;
      this.displayField := displayField;
      this.hasOnSelect := hasOnSelect;
      suggestions := [];
      loading := false;
      selected := [];
    }

    /** The remote branch is taken: no local list, and a non-empty endpoint. */
    predicate AsksRemote()
      reads this
    {
      suggestionsList.None? && apiEndpoint.Some? && apiEndpoint.value != ""
    }

    /** `fetchOrFilterSuggestions`: an empty term clears the suggestions and
        leaves `loading` as it was; otherwise the local filter or the remote
        answer becomes the suggestions, anything that throws or answers
        with an error leaves none, and loading ends. */
    method FetchOrFilterSuggestions(term: string, remote: RemoteReply)
      modifies this`suggestions, this`loading
      ensures |term| < 1 ==> suggestions == [] && loading == old(loading)
      ensures |term| >= 1 ==> !loading
      ensures |term| >= 1 && suggestionsList.Some? ==>
                suggestions == var local := LocalFilter(suggestionsList.value, displayField, term);
                               if local.Some? then local.value else []
      ensures |term| >= 1 && AsksRemote() ==> suggestions == if remote.Replied? then remote.items else []
      ensures |term| >= 1 && suggestionsList.None? && !AsksRemote() ==> suggestions == []
    {
      if |term| < 1 {
        suggestions := [];
        return;
      }
      loading := true;
      var result: seq<Obj> := [];
      var threw := false;
      if suggestionsList.Some? {
        var local := LocalFilter(suggestionsList.value, displayField, term);
        if local.None? {
          threw := true;
        } else {
          result := local.value;
        }
      } else if apiEndpoint.Some? && apiEndpoint.value != "" {
        match remote
        case Replied(items) => result := items;
        case Threw => threw := true;
        case _ =>
      }
      if threw {
        suggestions := [];
      } else {
        suggestions := result;
      }
      loading := false;
    }

    /** `handleSelectSuggestion`: the list closes and the parent is told. */
    method HandleSelectSuggestion(suggestion: Obj)
      modifies this`suggestions, this`selected
      ensures suggestions == []
      ensures selected == if hasOnSelect then old(selected) + [suggestion] else old(selected)
    {
      suggestions := [];
      if hasOnSelect {
        selected := selected + [suggestion];
      }
    }
  }
}
