/**
 The token of a stream of events, from what each event means to it.

 An event opens or closes an href or a sync-token element, brings a text, or does nothing. The token is the
 last text that stands behind an opened sync-token element, not yet closed, and outside an href.
 */
module TokenSigns {
  import opened Wrappers

  datatype Mark = Opening | Closing | Between

  /** What an event does to the two elements in question, and the text it brings. */
  datatype Sign = Sign(href: Mark, token: Mark, text: Option<string>)

  /** The opening of a sync-token element. */
  const OPENING := Sign(Between, Opening, None)

  datatype Element = Href | Token

  function MarkFor(s: Sign, w: Element): Mark {
    match w case Href => s.href case Token => s.token
  }

  predicate Opens(s: Sign, w: Element) { MarkFor(s, w) == Opening }

  predicate Closes(s: Sign, w: Element) { MarkFor(s, w) == Closing }

  /** The element is opened at `m`, self-closing or not, and not closed before position `k`. */
  ghost predicate OpenFrom(signs: seq<Sign>, m: nat, k: nat, w: Element)
    requires m < k <= |signs|
  {
    Opens(signs[m], w) && forall j :: m < j < k ==> !Closes(signs[j], w)
  }

  ghost predicate Within(signs: seq<Sign>, k: nat, w: Element)
    requires k <= |signs|
  {
    exists m :: 0 <= m < k && OpenFrom(signs, m, k, w)
  }

  ghost predicate TokenText(signs: seq<Sign>, k: nat)
    requires k < |signs|
  {
    signs[k].text.Some? && !Within(signs, k, Href) && Within(signs, k, Token)
  }

  /** The last token text, or nothing. */
  ghost predicate TokenRead(signs: seq<Sign>, t: string) {
    || (t == "" && forall k :: 0 <= k < |signs| ==> !TokenText(signs, k))
    || exists k :: 0 <= k < |signs| && TokenText(signs, k) && signs[k].text == Some(t)
                   && forall j :: k < j < |signs| ==> !TokenText(signs, j)
  }

  /** The same, one event after another. */
  predicate Inside(signs: seq<Sign>, k: nat, w: Element)
    requires k <= |signs|
  {
    k > 0 && (Opens(signs[k - 1], w) || (Inside(signs, k - 1, w) && !Closes(signs[k - 1], w)))
  }

  lemma {:induction false} InsideIsWithin(signs: seq<Sign>, k: nat, w: Element)
    requires k <= |signs|
    ensures Inside(signs, k, w) <==> Within(signs, k, w)
  {
    if k > 0 {
      InsideIsWithin(signs, k - 1, w);
      if Inside(signs, k, w) { StillWithin(signs, k, w); }
      if Within(signs, k, w) { WasWithin(signs, k, w); }
    }
  }

  lemma {:induction false} StillWithin(signs: seq<Sign>, k: nat, w: Element)
    requires 0 < k <= |signs|
    requires Opens(signs[k - 1], w) || (Within(signs, k - 1, w) && !Closes(signs[k - 1], w))
    ensures Within(signs, k, w)
  {
    if Opens(signs[k - 1], w) {
      assert OpenFrom(signs, k - 1, k, w);
    } else {
      var m :| 0 <= m < k - 1 && OpenFrom(signs, m, k - 1, w);
      assert OpenFrom(signs, m, k, w);
    }
  }

  lemma {:induction false} WasWithin(signs: seq<Sign>, k: nat, w: Element)
    requires 0 < k <= |signs| && Within(signs, k, w)
    ensures Opens(signs[k - 1], w) || (Within(signs, k - 1, w) && !Closes(signs[k - 1], w))
  {
    var m :| 0 <= m < k && OpenFrom(signs, m, k, w);
    if m < k - 1 { assert OpenFrom(signs, m, k - 1, w); }
  }

  lemma {:induction false} InsideMore(signs: seq<Sign>, more: seq<Sign>, k: nat, w: Element)
    requires k <= |signs|
    ensures Inside(signs + more, k, w) <==> Inside(signs, k, w)
  {
    if k > 0 {
      InsideMore(signs, more, k - 1, w);
      assert (signs + more)[k - 1] == signs[k - 1];
    }
  }

  lemma {:induction false} InsideBehind(front: seq<Sign>, rest: seq<Sign>, k: nat, w: Element)
    requires k <= |rest| && !Inside(front, |front|, w)
    ensures Inside(front + rest, |front| + k, w) <==> Inside(rest, k, w)
  {
    if k == 0 {
      InsideMore(front, rest, |front|, w);
    } else {
      InsideBehind(front, rest, k - 1, w);
      assert (front + rest)[|front| + k - 1] == rest[k - 1];
    }
  }

  /** Behind an opened element the reader stays inside until a closing. */
  lemma {:induction false} OpenUntilClosed(signs: seq<Sign>, n: nat, k: nat, w: Element)
    requires 0 < n <= k <= |signs| && Opens(signs[n - 1], w)
    requires forall j :: n <= j < k ==> !Opens(signs[j], w)
    ensures Inside(signs, k, w) <==> forall j :: n <= j < k ==> !Closes(signs[j], w)
  {
    if n < k { OpenUntilClosed(signs, n, k - 1, w); }
  }

  lemma {:induction false} OpenBehind(head: seq<Sign>, rest: seq<Sign>, k: nat, w: Element)
    requires head != [] && Opens(head[|head| - 1], w) && NeverOpens(rest, w) && k <= |rest|
    ensures Inside(head + rest, |head| + k, w) <==> Unclosed(rest, k, w)
  {
    var all, n := head + rest, |head|;
    forall j | n <= j < n + k
      ensures !Opens(all[j], w) && (Closes(all[j], w) <==> Closes(rest[j - n], w))
    {
      assert all[j] == rest[j - n];
    }
    OpenUntilClosed(all, n, n + k, w);
    if Unclosed(rest, k, w) {
      assert forall j :: n <= j < n + k ==> !Closes(all[j], w);
    } else {
      var j :| 0 <= j < k && Closes(rest[j], w);
      assert Closes(all[n + j], w);
    }
  }

  ghost predicate Unclosed(signs: seq<Sign>, k: nat, w: Element)
    requires k <= |signs|
  {
    forall j :: 0 <= j < k ==> !Closes(signs[j], w)
  }

  ghost predicate NeverOpens(signs: seq<Sign>, w: Element) {
    forall i :: 0 <= i < |signs| ==> !Opens(signs[i], w)
  }

  lemma {:induction false} TokenTextInside(signs: seq<Sign>, k: nat)
    requires k < |signs|
    ensures TokenText(signs, k) <==> signs[k].text.Some? && !Inside(signs, k, Href) && Inside(signs, k, Token)
  {
    InsideIsWithin(signs, k, Href);
    InsideIsWithin(signs, k, Token);
  }

  lemma {:induction false} TokenTextMore(signs: seq<Sign>, e: Sign, k: nat)
    requires k < |signs|
    ensures TokenText(signs + [e], k) <==> TokenText(signs, k)
  {
    TokenTextInside(signs, k);
    TokenTextInside(signs + [e], k);
    InsideMore(signs, [e], k, Href);
    InsideMore(signs, [e], k, Token);
  }

  lemma {:induction false} TokenReadGrows(signs: seq<Sign>, e: Sign, t: string)
    requires TokenRead(signs, t)
    ensures TokenRead(signs + [e], if TokenText(signs + [e], |signs|) then e.text.value else t)
  {
    var all, n := signs + [e], |signs|;
    if !TokenText(all, n) {
      if k :| 0 <= k < n && TokenText(signs, k) && signs[k].text == Some(t)
              && forall j :: k < j < n ==> !TokenText(signs, j) {
        TokenTextMore(signs, e, k);
        forall j | k < j < |all|
          ensures !TokenText(all, j)
        {
          if j < n { TokenTextMore(signs, e, j); }
        }
      } else {
        forall j | 0 <= j < |all|
          ensures !TokenText(all, j)
        {
          if j < n { TokenTextMore(signs, e, j); }
        }
      }
    }
  }

  // A token element in its place ------------------------------------------------------------------------------

  /** No sync-token element is opened, and no href is left open. */
  ghost predicate NoTokenYet(front: seq<Sign>) {
    NeverOpens(front, Token) && !Within(front, |front|, Href)
  }

  /** A text behind the token element, outside hrefs, with no closing of a sync-token element before it. */
  ghost predicate StrayText(rest: seq<Sign>, k: nat)
    requires k < |rest|
  {
    rest[k].text.Some? && !Within(rest, k, Href) && Unclosed(rest, k, Token)
  }

  /** Behind an opened token element the token texts are the stray ones. */
  lemma {:induction false} StrayIsToken(head: seq<Sign>, rest: seq<Sign>, k: nat)
    requires head != [] && Opens(head[|head| - 1], Token) && !Inside(head, |head|, Href)
    requires NeverOpens(rest, Token) && k < |rest|
    ensures TokenText(head + rest, |head| + k) <==> StrayText(rest, k)
  {
    TokenTextInside(head + rest, |head| + k);
    OpenBehind(head, rest, k, Token);
    InsideBehind(head, rest, k, Href);
    InsideIsWithin(rest, k, Href);
  }

  lemma {:induction false} NothingBeforeToken(front: seq<Sign>, e: Sign, rest: seq<Sign>, k: nat)
    requires NoTokenYet(front) && !e.text.Some? && k <= |front|
    ensures !TokenText(front + [e] + rest, k)
  {
  }

  /** The last stray text, or nothing. */
  ghost predicate StrayRead(rest: seq<Sign>, t: string) {
    || (t == "" && forall k :: 0 <= k < |rest| ==> !StrayText(rest, k))
    || exists k :: 0 <= k < |rest| && StrayText(rest, k) && rest[k].text == Some(t)
                   && forall j :: k < j < |rest| ==> !StrayText(rest, j)
  }

  /** From position `n` on, the token texts of `all` are the stray texts of `rest`. */
  ghost predicate SameTexts(all: seq<Sign>, n: nat, rest: seq<Sign>) {
    && |all| == n + |rest| && all[n..] == rest
    && (forall k :: 0 <= k < n ==> !TokenText(all, k))
    && forall i :: 0 <= i < |rest| ==> (TokenText(all, n + i) <==> StrayText(rest, i))
  }

  lemma {:induction false} BehindTokenElement(front: seq<Sign>, e: Sign, rest: seq<Sign>)
    requires NoTokenYet(front) && e == OPENING && NeverOpens(rest, Token)
    ensures SameTexts(front + [e] + rest, |front| + 1, rest)
  {
    var head := front + [e];
    InsideIsWithin(front, |front|, Href);
    InsideMore(front, [e], |front|, Href);
    forall k | 0 <= k < |head|
      ensures !TokenText(head + rest, k)
    {
      NothingBeforeToken(front, e, rest, k);
    }
    forall i | 0 <= i < |rest|
      ensures TokenText(head + rest, |head| + i) <==> StrayText(rest, i)
    {
      StrayIsToken(head, rest, i);
    }
  }

  lemma {:induction false} SameRead(all: seq<Sign>, n: nat, rest: seq<Sign>, t: string)
    requires SameTexts(all, n, rest) && TokenRead(all, t)
    ensures StrayRead(rest, t)
  {
  }

  /** What is read as the token behind one token element: the last stray text. */
  lemma {:induction false} TokenIsStray(front: seq<Sign>, e: Sign, rest: seq<Sign>, t: string)
    requires NoTokenYet(front) && e == OPENING && NeverOpens(rest, Token)
    requires TokenRead(front + [e] + rest, t)
    ensures StrayRead(rest, t)
  {
    BehindTokenElement(front, e, rest);
    SameRead(front + [e] + rest, |front| + 1, rest, t);
  }

  ghost predicate LastStrayAt(rest: seq<Sign>, k: nat)
    requires k < |rest|
  {
    StrayText(rest, k) && forall j :: k < j < |rest| ==> !StrayText(rest, j)
  }

  lemma {:induction false} EmptyStrayIff(rest: seq<Sign>, t: string)
    requires StrayRead(rest, t)
    ensures t == "" <==> forall k :: 0 <= k < |rest| && LastStrayAt(rest, k) ==> rest[k].text == Some("")
  {
  }

  /** A text between the opening and the closing of the one token element is the token. */
  lemma {:induction false} TextIsStray(text: Sign, close: Sign, rest: seq<Sign>, t: string)
    requires text.text.Some? && close == Sign(Between, Closing, None)
    requires StrayRead([text, close] + rest, t)
    ensures text.text == Some(t)
  {
    var behind := [text, close] + rest;
    assert behind[0] == text && behind[1] == close && !Within(behind, 0, Href);
    assert StrayText(behind, 0);
    forall k | 0 < k < |behind|
      ensures !StrayText(behind, k)
    {
      assert k > 1 ==> Closes(behind[1], Token);
    }
  }
}
