/**
 Which text of a REPORT body becomes the sync token.

 For every sequence of events the token that the reader keeps is the one that `TokenSigns` describes. From
 this follows when a self-closing token element is read as no token, with or without a sync level.
 */
module ReportToken {
  import opened Wrappers
  import opened XmlRequest
  import opened TokenSigns

  function MarkOf(e: XmlEvent, tag: Tag): Mark {
    if IsElement(e) && TagOf(e.name) == tag then Opening
    else if e.End? && TagOf(e.name) == tag then Closing
    else Between
  }

  /** What one event means to the token; a self-closing element opens like any other. */
  function SignOf(e: XmlEvent): Sign {
    Sign(MarkOf(e, HrefTag), MarkOf(e, TokenTag), if e.Text? then Some(e.text) else None)
  }

  function Signs(events: seq<XmlEvent>): (r: seq<Sign>)
    ensures |r| == |events|
  {
    if events == [] then [] else Signs(events[..|events| - 1]) + [SignOf(events[|events| - 1])]
  }

  lemma {:induction false} SignsMore(events: seq<XmlEvent>, e: XmlEvent)
    ensures Signs(events + [e]) == Signs(events) + [SignOf(e)]
  {
  }

  lemma {:induction false} SignsAppend(events: seq<XmlEvent>, more: seq<XmlEvent>)
    ensures Signs(events + more) == Signs(events) + Signs(more)
    decreases |more|
  {
    if more == [] {
      assert events + more == events;
    } else {
      var n := |more| - 1;
      assert events + more == (events + more[..n]) + [more[n]];
      SignsMore(events + more[..n], more[n]);
      SignsAppend(events, more[..n]);
    }
  }

  // The reader -------------------------------------------------------------------------------------------------

  lemma {:induction false} ElementFlags(st: ReportState, name: string, attributes: Attributes)
    ensures var after := AfterReportElement(st, name, attributes);
            && (after.inHref <==> TagOf(name) == HrefTag || st.inHref)
            && (after.inSyncToken <==> TagOf(name) == TokenTag || st.inSyncToken)
            && after.syncToken == st.syncToken
  {
  }

  lemma {:induction false} FlagsAfter(st: ReportState, e: XmlEvent)
    ensures var after, s := AfterEvent(st, e), SignOf(e);
            && (after.inHref <==> Opens(s, Href) || (st.inHref && !Closes(s, Href)))
            && (after.inSyncToken <==> Opens(s, Token) || (st.inSyncToken && !Closes(s, Token)))
            && after.syncToken == if s.text.Some? && !st.inHref && st.inSyncToken then s.text.value else st.syncToken
  {
    if IsElement(e) { ElementFlags(st, e.name, e.attributes); }
  }

  /** The reader's flags and token, from the signs alone. */
  ghost predicate Follows(st: ReportState, signs: seq<Sign>) {
    && (st.inHref <==> Inside(signs, |signs|, Href))
    && (st.inSyncToken <==> Inside(signs, |signs|, Token))
    && TokenRead(signs, st.syncToken)
  }

  lemma {:induction false} FollowsOn(st: ReportState, signs: seq<Sign>, after: ReportState, s: Sign)
    requires Follows(st, signs)
    requires after.inHref <==> Opens(s, Href) || (st.inHref && !Closes(s, Href))
    requires after.inSyncToken <==> Opens(s, Token) || (st.inSyncToken && !Closes(s, Token))
    requires after.syncToken == if s.text.Some? && !st.inHref && st.inSyncToken then s.text.value else st.syncToken
    ensures Follows(after, signs + [s])
  {
    var n := |signs|;
    InsideMore(signs, [s], n, Href);
    InsideMore(signs, [s], n, Token);
    TokenTextInside(signs + [s], n);
    TokenReadGrows(signs, s, st.syncToken);
  }

  /** For every sequence of events: the token the reader keeps is the one the events describe. */
  lemma {:induction false} ReaderFollows(events: seq<XmlEvent>)
    ensures Follows(EventsAfter(NEW_REPORT, events), Signs(events))
    decreases |events|
  {
    if events != [] {
      var n := |events| - 1;
      var front, e := events[..n], events[n];
      assert events == front + [e];
      ReaderFollows(front);
      EventsAfterAppend(NEW_REPORT, front, [e]);
      assert [e][1..] == [];
      FlagsAfter(EventsAfter(NEW_REPORT, front), e);
      FollowsOn(EventsAfter(NEW_REPORT, front), Signs(front), EventsAfter(NEW_REPORT, events), SignOf(e));
    }
  }

  /** A request that is read at all is read from all its events. */
  lemma {:induction false} ReadToTheEnd(st: ReportState, events: seq<XmlEvent>)
    requires ReportFrom(st, events).Some?
    ensures ReportFrom(st, events) == Report(EventsAfter(st, events))
    decreases |events|
  {
    if events != [] { ReadToTheEnd(AfterEvent(st, events[0]), events[1..]); }
  }

  /** The token of any sync request: the last text behind an opened, unclosed token element and outside hrefs. */
  lemma {:induction false} SyncTokenIs(events: seq<XmlEvent>, request: ReportRequest)
    requires ReportFrom(NEW_REPORT, events) == Some(request) && request.SyncCollection?
    ensures TokenRead(Signs(events), request.syncToken)
  {
    ReadToTheEnd(NEW_REPORT, events);
    ReaderFollows(events);
  }

  /** So it is empty or one of the texts. */
  lemma {:induction false} TokenIsText(events: seq<XmlEvent>, request: ReportRequest)
    requires ReportFrom(NEW_REPORT, events) == Some(request) && request.SyncCollection?
    ensures request.syncToken == "" || exists e :: e in events && e.Text? && e.text == request.syncToken
  {
    SyncTokenIs(events, request);
    var signs := Signs(events);
    if k :| 0 <= k < |signs| && TokenText(signs, k) && signs[k].text == Some(request.syncToken) {
      SignAt(events, k);
      assert events[k] in events;
    }
  }

  lemma {:induction false} SignAt(events: seq<XmlEvent>, k: nat)
    requires k < |events|
    ensures Signs(events)[k] == SignOf(events[k])
    decreases |events|
  {
    if k < |events| - 1 { SignAt(events[..|events| - 1], k); }
  }

  // One token element --------------------------------------------------------------------------------------------

  lemma {:induction false} SplitSigns(front: seq<XmlEvent>, e: XmlEvent, rest: seq<XmlEvent>)
    ensures Signs(front + [e] + rest) == Signs(front) + [SignOf(e)] + Signs(rest)
  {
    SignsMore(front, e);
    SignsAppend(front + [e], rest);
  }

  /**
   A sync request whose one token element is self-closing: its token is the last stray text. So it reads as
   no token exactly when no text follows, outside hrefs and before a closing of sync-token, or the last such
   text is empty.
   */
  lemma {:induction false} SelfClosingIff(
    front: seq<XmlEvent>, name: string, attributes: Attributes, rest: seq<XmlEvent>, request: ReportRequest)
    requires NoTokenYet(Signs(front)) && TagOf(name) == TokenTag && NeverOpens(Signs(rest), Token)
    requires ReportFrom(NEW_REPORT, front + [EmptyElement(name, attributes)] + rest) == Some(request)
    requires request.SyncCollection?
    ensures StrayRead(Signs(rest), request.syncToken)
    ensures request.syncToken == "" <==>
            forall k :: 0 <= k < |rest| && LastStrayAt(Signs(rest), k) ==> Signs(rest)[k].text == Some("")
  {
    var e := EmptyElement(name, attributes);
    SyncTokenIs(front + [e] + rest, request);
    SplitSigns(front, e, rest);
    TokenIsStray(Signs(front), SignOf(e), Signs(rest), request.syncToken);
    EmptyStrayIff(Signs(rest), request.syncToken);
  }

  /** A token sent as the text of its element is read as it is, whatever stands around it. */
  lemma {:induction false} TextTokenIsRead(
    front: seq<XmlEvent>, name: string, attributes: Attributes, token: string, end: string, rest: seq<XmlEvent>,
    request: ReportRequest)
    requires NoTokenYet(Signs(front)) && TagOf(name) == TokenTag && TagOf(end) == TokenTag
        && NeverOpens(Signs(rest), Token)
    requires ReportFrom(NEW_REPORT, front + [Start(name, attributes)] + ([Text(token), End(end)] + rest))
        == Some(request)
    requires request.SyncCollection?
    ensures request.syncToken == token
  {
    var e, behind := Start(name, attributes), [Text(token), End(end)] + rest;
    SyncTokenIs(front + [e] + behind, request);
    SplitSigns(front, e, behind);
    TextSigns(token, end, rest);
    TokenIsStray(Signs(front), SignOf(e), Signs(behind), request.syncToken);
    TextIsStray(SignOf(Text(token)), SignOf(End(end)), Signs(rest), request.syncToken);
  }

  lemma {:induction false} TextSigns(token: string, end: string, rest: seq<XmlEvent>)
    requires TagOf(end) == TokenTag && NeverOpens(Signs(rest), Token)
    ensures Signs([Text(token), End(end)] + rest) == [SignOf(Text(token)), SignOf(End(end))] + Signs(rest)
    ensures NeverOpens(Signs([Text(token), End(end)] + rest), Token)
  {
    SignsAppend([Text(token), End(end)], rest);
    assert [Text(token), End(end)][..1] == [Text(token)] && [Text(token)][..0] == [];
    assert Signs([Text(token)]) == [SignOf(Text(token))];
  }
}
