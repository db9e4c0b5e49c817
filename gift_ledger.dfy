/** The gift-count ledger behind the two subscription-gift handlers. A community ("mass")
    gift credits the gifter with its count and is thanked at once; each individual gift that
    follows uses up one unit of that credit silently; an individual gift with no credit left
    is thanked on its own. The ledger is never persisted. */
module GiftLedger {

  import opened Wrappers
  import Replies

  /** `giftCounts`: gifter name to the credit left from that gifter's community gifts. */
  type Ledger = map<string, int>

  /** `giftCounts.get(user) ?? 0`: a missing entry reads as 0. */
  function CountOf(m: Ledger, user: string): int {
    if user in m then m[user] else 0
  }

  /** The ledger after one handler, and the chat reply it sends, if any. */
  datatype Outcome = Outcome(ledger: Ledger, reply: Option<string>)

  /** `onCommunitySub`: credit the gifter with `count` and thank them for the whole batch. */
  function CommunitySub(m: Ledger, user: string, count: int): (o: Outcome)
    ensures o.ledger.Keys == m.Keys + {user}
    ensures CountOf(o.ledger, user) == CountOf(m, user) + count
    ensures forall u :: u != user ==> CountOf(o.ledger, u) == CountOf(m, u)
    ensures o.reply == Some(Replies.MassGift(user, count))
  {
    Outcome(m[user := CountOf(m, user) + count], Some(Replies.MassGift(user, count)))
  }

  /** `onSubGift`: use up one unit of credit silently, or, with no credit, thank the gifter
      for this one recipient and leave the ledger as it was. */
  function SubGift(m: Ledger, gifter: string, recipient: string): (o: Outcome)
    ensures o.ledger.Keys == m.Keys
    ensures o.reply.None? <==> CountOf(m, gifter) > 0
    ensures o.reply.None? ==> CountOf(o.ledger, gifter) == CountOf(m, gifter) - 1
    ensures forall u :: u != gifter ==> CountOf(o.ledger, u) == CountOf(m, u)
    ensures o.reply.Some? ==> o.ledger == m && o.reply.value == Replies.SingleGift(gifter, recipient)
  {
    var previous := CountOf(m, gifter);
    if previous > 0 then Outcome(m[gifter := previous - 1], None)
    else Outcome(m, Some(Replies.SingleGift(gifter, recipient)))
  }

  /** A gift event as the chat client delivers it. */
  datatype GiftEvent =
    | CommunityGift(user: string, count: int)
    | IndividualGift(gifter: string, recipient: string)

  function Apply(m: Ledger, e: GiftEvent): Outcome {
    match e
    case CommunityGift(user, count) => CommunitySub(m, user, count)
    case IndividualGift(gifter, recipient) => SubGift(m, gifter, recipient)
  }

  /** The final ledger of a run and the reply (or silence) of each event, in order. */
  datatype Trace = Trace(ledger: Ledger, replies: seq<Option<string>>)

  /** Handlers run one at a time to completion, in arrival order. */
  function Run(m: Ledger, es: seq<GiftEvent>): (t: Trace)
    ensures |t.replies| == |es|
    decreases |es|
  {
    if es == [] then Trace(m, [])
    else
      var o := Apply(m, es[0]);
      var rest := Run(o.ledger, es[1..]);
      Trace(rest.ledger, [o.reply] + rest.replies)
  }

  ghost predicate NonNegative(m: Ledger) {
    forall u :: u in m ==> m[u] >= 0
  }

  predicate CountsNonNegative(es: seq<GiftEvent>) {
    forall i :: 0 <= i < |es| && es[i].CommunityGift? ==> es[i].count >= 0
  }

  predicate Involves(e: GiftEvent, u: string) {
    match e
    case CommunityGift(user, _) => user == u
    case IndividualGift(gifter, _) => gifter == u
  }

  /** The total `u` gave in community gifts during `es`. */
  function Credited(es: seq<GiftEvent>, u: string): int {
    if es == [] then 0
    else (if es[0].CommunityGift? && es[0].user == u then es[0].count else 0) + Credited(es[1..], u)
  }

  /** How many individual gifts from `u` went without their own thank-you. */
  function Suppressed(es: seq<GiftEvent>, rs: seq<Option<string>>, u: string): nat
    requires |es| == |rs|
  {
    if es == [] then 0
    else (if es[0].IndividualGift? && es[0].gifter == u && rs[0].None? then 1 else 0)
         + Suppressed(es[1..], rs[1..], u)
  }

  /** With non-negative community counts, no entry of the ledger ever goes below 0. */
  lemma {:induction false} RunKeepsNonNegative(m: Ledger, es: seq<GiftEvent>)
    requires NonNegative(m) && CountsNonNegative(es)
    ensures NonNegative(Run(m, es).ledger)
    decreases |es|
  {
    if es != [] {
      var o := Apply(m, es[0]);
      assert NonNegative(o.ledger) by {
        forall u | u in o.ledger ensures o.ledger[u] >= 0 {
          assert CountOf(o.ledger, u) == o.ledger[u];
        }
      }
      assert CountsNonNegative(es[1..]) by {
        forall i | 0 <= i < |es[1..]| && es[1..][i].CommunityGift? ensures es[1..][i].count >= 0 {
          assert es[1..][i] == es[i + 1];
        }
      }
      RunKeepsNonNegative(o.ledger, es[1..]);
    }
  }

  /** A user who neither gives nor is named as gifter in any event keeps their entry (or its absence). */
  lemma {:induction false} RunLeavesOthers(m: Ledger, es: seq<GiftEvent>, u: string)
    requires forall i :: 0 <= i < |es| ==> !Involves(es[i], u)
    ensures u in Run(m, es).ledger <==> u in m
    ensures CountOf(Run(m, es).ledger, u) == CountOf(m, u)
    decreases |es|
  {
    if es != [] {
      assert !Involves(es[0], u);
      var o := Apply(m, es[0]);
      assert forall i :: 0 <= i < |es[1..]| ==> es[1..][i] == es[i + 1];
      RunLeavesOthers(o.ledger, es[1..], u);
    }
  }

  /** Every unit of credit is accounted for: what is left equals what was there, plus what
      community gifts added, minus the individual gifts that went unthanked. */
  lemma {:induction false} Accounting(m: Ledger, es: seq<GiftEvent>, u: string)
    ensures CountOf(Run(m, es).ledger, u) == CountOf(m, u) + Credited(es, u) - Suppressed(es, Run(m, es).replies, u)
    decreases |es|
  {
    if es != [] {
      var o := Apply(m, es[0]);
      var rest := Run(o.ledger, es[1..]);
      assert Run(m, es).replies == [o.reply] + rest.replies;
      assert ([o.reply] + rest.replies)[1..] == rest.replies;
      Accounting(o.ledger, es[1..], u);
    }
  }

  /** No gift goes unthanked beyond what was covered: the individual gifts left without their
      own thank-you never exceed the credit the gifter had plus what their community gifts added.
      (That a gift is silent exactly when credit remained is `ReplyAt`.) */
  lemma SilencedWithinCredit(m: Ledger, es: seq<GiftEvent>, u: string)
    requires NonNegative(m) && CountsNonNegative(es)
    ensures Suppressed(es, Run(m, es).replies, u) <= CountOf(m, u) + Credited(es, u)
  {
    Accounting(m, es, u);
    RunKeepsNonNegative(m, es);
    assert CountOf(Run(m, es).ledger, u) >= 0;
  }

  /** Running two batches one after the other is running their concatenation. */
  lemma {:induction false} RunAppend(m: Ledger, xs: seq<GiftEvent>, ys: seq<GiftEvent>)
    ensures Run(m, xs + ys) ==
            Trace(Run(Run(m, xs).ledger, ys).ledger, Run(m, xs).replies + Run(Run(m, xs).ledger, ys).replies)
    decreases |xs|
  {
    if xs == [] {
      assert xs + ys == ys;
    } else {
      var o := Apply(m, xs[0]);
      var zs := xs + ys;
      assert zs[0] == xs[0] && zs[1..] == xs[1..] + ys;
      var mid := Run(o.ledger, xs[1..]);
      var tail := Run(mid.ledger, ys);
      RunAppend(o.ledger, xs[1..], ys);
      assert Run(o.ledger, zs[1..]) == Trace(tail.ledger, mid.replies + tail.replies);
      assert [o.reply] + (mid.replies + tail.replies) == ([o.reply] + mid.replies) + tail.replies;
    }
  }

  /** The reply to the `i`-th event is what its handler says in the ledger the earlier events left:
      a thank-you for every community gift, and for an individual gift either silence, when
      credit remained, or a thank-you naming gifter and recipient. */
  lemma ReplyAt(m: Ledger, es: seq<GiftEvent>, i: nat)
    requires i < |es|
    ensures var before := Run(m, es[..i]).ledger;
            var r := Run(m, es).replies[i];
            && r == Apply(before, es[i]).reply
            && (es[i].CommunityGift? ==> r == Some(Replies.MassGift(es[i].user, es[i].count)))
            && (es[i].IndividualGift? ==>
                  (r.None? <==> CountOf(before, es[i].gifter) > 0)
                  && (r.Some? ==> r.value == Replies.SingleGift(es[i].gifter, es[i].recipient)))
  {
    assert es == es[..i] + es[i..];
    RunAppend(m, es[..i], es[i..]);
    var before := Run(m, es[..i]).ledger;
    assert es[i..][0] == es[i];
    assert Run(before, es[i..]).replies[0] == Apply(before, es[i]).reply;
  }

  /** `n` individual gifts from `u`, one per recipient. */
  function GiftsFrom(u: string, recipients: seq<string>): (es: seq<GiftEvent>)
    ensures |es| == |recipients|
  {
    seq(|recipients|, i requires 0 <= i < |recipients| => IndividualGift(u, recipients[i]))
  }

  function Silent(n: nat): (rs: seq<Option<string>>)
    ensures |rs| == n && forall i :: 0 <= i < n ==> rs[i].None?
  {
    seq(n, _ => None)
  }

  /** While credit lasts, individual gifts each use up one unit and say nothing. */
  lemma {:induction false} Drain(m: Ledger, u: string, recipients: seq<string>)
    requires u in m && m[u] >= |recipients|
    ensures Run(m, GiftsFrom(u, recipients)) == Trace(m[u := m[u] - |recipients|], Silent(|recipients|))
    decreases |recipients|
  {
    var es := GiftsFrom(u, recipients);
    if recipients == [] {
      assert m[u := m[u]] == m;
    } else {
      var m' := m[u := m[u] - 1];
      assert Apply(m, es[0]) == Outcome(m', None);
      assert es[1..] == GiftsFrom(u, recipients[1..]);
      Drain(m', u, recipients[1..]);
      assert m'[u := m'[u] - |recipients[1..]|] == m[u := m[u] - |recipients|];
      assert [None] + Silent(|recipients| - 1) == Silent(|recipients|);
    }
  }

  /** A community gift of N followed by the N individual gifts of that batch leaves the gifter's
      count where it was (0 for a first-time gifter) and sends only the one batch thank-you. */
  lemma MassGiftThenIndividuals(m: Ledger, u: string, recipients: seq<string>)
    requires CountOf(m, u) >= 0
    ensures Run(m, [CommunityGift(u, |recipients|)] + GiftsFrom(u, recipients)) ==
            Trace(m[u := CountOf(m, u)], [Some(Replies.MassGift(u, |recipients|))] + Silent(|recipients|))
  {
    var n := |recipients|;
    var es := [CommunityGift(u, n)] + GiftsFrom(u, recipients);
    var o := CommunitySub(m, u, n);
    assert es[0] == CommunityGift(u, n);
    assert es[1..] == GiftsFrom(u, recipients);
    Drain(o.ledger, u, recipients);
    assert o.ledger[u := o.ledger[u] - n] == m[u := CountOf(m, u)];
  }

  /** An individual gift from a gifter with no entry is thanked and leaves the entry absent. */
  lemma UncreditedGiftThanked(m: Ledger, gifter: string, recipient: string)
    requires gifter !in m
    ensures SubGift(m, gifter, recipient) == Outcome(m, Some(Replies.SingleGift(gifter, recipient)))
  {
  }

  /** The ledger object and its two handlers, each run as one atomic step. */
  class GiftCounter {

    var counts: Ledger

    constructor ()
      ensures counts == map[]
    {
      counts := map[];
    }

    method OnCommunitySub(user: string, count: int) returns (reply: Option<string>)
      modifies this
      ensures Outcome(counts, reply) == CommunitySub(old(counts), user, count)
      ensures NonNegative(old(counts)) && count >= 0 ==> NonNegative(counts)
    {
      var previous := if user in counts then counts[user] else 0;
      counts := counts[user := previous + count];
      reply := Some(Replies.MassGift(user, count));
    }

    method OnSubGift(gifter: string, recipient: string) returns (reply: Option<string>)
      modifies this
      ensures Outcome(counts, reply) == SubGift(old(counts), gifter, recipient)
      ensures NonNegative(old(counts)) ==> NonNegative(counts)
    {
      var previous := if gifter in counts then counts[gifter] else 0;
      if previous > 0 {
        counts := counts[gifter := previous - 1];
        reply := None;
      } else {
        reply := Some(Replies.SingleGift(gifter, recipient));
      }
    }
  }

}
