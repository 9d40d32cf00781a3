/**
 * The blog page's live search box (blog/static/blog/js/script.js). Each
 * input event restarts a 300 ms debounce timer for the stripped text,
 * or clears and hides the results when that text is shorter than two
 * characters; when the timer fires the query goes to search_posts_ajax,
 * and the answer fills the results panel. The timer, the request and the
 * answer are separate events, so their interleavings can be stated.
 */
module LiveSearch {
  import opened Wrappers
  import opened Text
  import Models
  import Views

  /** The results panel's content. */
  datatype Panel =
    | Blank
    | NoResults
    | Items(results: seq<Views.SearchResult>)

  /** What the request's promise settles with: a fetch or JSON failure, or
      a decoded body whose `results` member may be missing. */
  datatype Answer =
    | Failed
    | Answered(results: Option<seq<Views.SearchResult>>)

  /** A text the box sends: at least two characters and no whitespace at
      either end, so stripping leaves it as it is (TrimNoEdgeSpaces). */
  predicate Sendable(q: string) {
    |q| >= Views.MinQueryLength && !IsSpace(q[0]) && !IsSpace(q[|q| - 1])
  }

  class SearchBox {
    /** The query of the running debounce timer, if any. */
    var pending: Option<string>
    var panel: Panel
    /** Whether the panel has the `show` class. */
    var visible: bool

    ghost predicate Valid()
      reads this
    {
      pending.Some? ==> Sendable(pending.value)
    }

    constructor ()
      ensures Valid() && pending == None && panel == Blank && !visible
    {
      pending, panel, visible := None, Blank, false;
    }

    /** The input handler: the old timer is cancelled; a stripped value
        under two characters empties and hides the panel, any other starts
        a timer for the stripped value. */
    method Input(value: string) returns (query: string)
      modifies this
      ensures query == Trim(value)
      ensures Valid()
      ensures |query| < Views.MinQueryLength ==> pending == None && panel == Blank && !visible
      ensures |query| >= Views.MinQueryLength ==>
                pending == Some(query) && panel == old(panel) && visible == old(visible)
    {
      query := Trim(value);
      pending := None;
      if |query| < Views.MinQueryLength {
        panel := Blank;
        visible := false;
        return;
      }
      pending := Some(query);
    }

    /** The debounce timer fires and the request for its query leaves. */
    method TimerFires() returns (query: string)
      requires Valid() && pending.Some?
      modifies this`pending
      ensures Valid() && pending == None
      ensures query == old(pending.value) && Sendable(query)
    {
      query := pending.value;
      pending := None;
    }

    /** An answer arrives: a failure is only logged; a non-empty result
        list fills and shows the panel; a missing or empty one shows the
        "no results" message. */
    method AnswerArrives(answer: Answer)
      modifies this`panel, this`visible
      ensures answer.Failed? ==> panel == old(panel) && visible == old(visible)
      ensures answer.Answered? ==> visible
      ensures answer.Answered? ==>
                (panel.Items? <==> answer.results.Some? && |answer.results.value| > 0)
      ensures panel.Items? && answer.Answered? ==> panel.results == answer.results.value
      ensures answer.Answered? && !panel.Items? ==> panel == NoResults
    {
      match answer {
        case Failed =>
        case Answered(results) =>
          if results.Some? && |results.value| > 0 {
            panel := Items(results.value);
          } else {
            panel := NoResults;
          }
          visible := true;
      }
    }

    /** A click anywhere outside the box and the panel hides the panel. */
    method DocumentClick(insideBox: bool, insidePanel: bool)
      modifies this`visible
      ensures visible == (old(visible) && (insideBox || insidePanel))
    {
      if !insideBox && !insidePanel {
        visible := false;
      }
    }
  }

  /** Every query the box sends passes the view's length gate, so the view
      answers with the first ten posts it matched and the panel shows items
      exactly when some post matched. */
  lemma SentQueryIsServed(q: string, matching: seq<Models.Post>)
    requires Sendable(q)
    ensures |Views.SearchPostsAjax(q, matching)| > 0 <==> |matching| > 0
  {
    TrimNoEdgeSpaces(q);
  }

  /** Nothing ties an answer to the text now in the box: a request leaves,
      the box is then emptied or cut to one character (which hides the panel), and the late answer
      still fills and shows the panel. */
  method LateAnswerAfterClearing(box: SearchBox, cleared: string, rs: seq<Views.SearchResult>)
      returns (sent: string)
    requires box.Valid() && box.pending.Some?
    requires |cleared| < Views.MinQueryLength && |rs| > 0
    modifies box
    ensures Sendable(sent) && box.pending == None
    ensures box.visible && box.panel == Items(rs)
  {
    sent := box.TimerFires();
    var _ := box.Input(cleared);
    box.AnswerArrives(Answered(Some(rs)));
  }
}
