/** The chat replies the bot sends with `chatClient.action`: one template per chat
    event, each with a parser that reads the event's fields back out of the text. */
module Replies {

  import opened Wrappers
  import Decimal

  /** The text of a reply with at most two holes: head, first hole, mid, second hole, tail. */
  datatype Template = Template(head: string, mid: string, tail: string)

  predicate NoSpace(s: string) {
    forall i :: 0 <= i < |s| ==> s[i] != ' '
  }

  function Fill(t: Template, a: string, b: string): string {
    t.head + a + t.mid + b + t.tail
  }

  /** Index of the first space in `s`, or `|s|` if there is none. */
  function FirstSpace(s: string): (k: nat)
    ensures k <= |s| && NoSpace(s[..k])
    ensures k < |s| ==> s[k] == ' '
  {
    if s == [] || s[0] == ' ' then 0
    else
      var k := 1 + FirstSpace(s[1..]);
      assert s[..k] == [s[0]] + s[1..][..k - 1];
      k
  }

  /** What stands between `head` and `tail` in `s`, if `s` starts and ends with them. */
  function Strip(head: string, tail: string, s: string): Option<string> {
    if |head| + |tail| <= |s| && s[..|head|] == head && s[|s| - |tail|..] == tail
    then Some(s[|head|..|s| - |tail|])
    else None
  }

  /** Reads the two holes back: the first hole ends at the first space after the head. */
  function Unfill(t: Template, s: string): Option<(string, string)> {
    match Strip(t.head, t.tail, s)
    case None => None
    case Some(middle) => Split(t.mid, middle)
  }

  /** Splits `first + mid + second` where `first` ends at the first space. */
  function Split(mid: string, middle: string): Option<(string, string)> {
    var k := FirstSpace(middle);
    var rest := middle[k..];
    if |mid| <= |rest| && rest[..|mid|] == mid then Some((middle[..k], rest[|mid|..]))
    else None
  }

  lemma StripAround(head: string, x: string, tail: string)
    ensures Strip(head, tail, head + x + tail) == Some(x)
  {
    var s := head + x + tail;
    assert s[..|head|] == head;
    assert s[|s| - |tail|..] == tail;
    assert s[|head|..|s| - |tail|] == x;
  }

  lemma FirstSpaceAfter(a: string, rest: string)
    requires NoSpace(a) && |rest| > 0 && rest[0] == ' '
    ensures FirstSpace(a + rest) == |a|
  {
    var s := a + rest;
    assert s[|a|] == ' ';
    assert forall i :: 0 <= i < |a| ==> s[i] == a[i];
  }

  /** Splitting `a + mid + b` at the first space gives `a` and `b` back, when `a` has no space
      and `mid` starts with one. */
  lemma SplitJoined(a: string, mid: string, b: string)
    requires NoSpace(a) && |mid| > 0 && mid[0] == ' '
    ensures Split(mid, a + mid + b) == Some((a, b))
  {
    var middle := a + mid + b;
    assert middle == a + (mid + b);
    FirstSpaceAfter(a, mid + b);
    var rest := middle[|a|..];
    assert middle[..|a|] == a;
    assert rest == mid + b;
    assert rest[..|mid|] == mid;
    assert rest[|mid|..] == b;
  }

  /** Un-filling a filled template whose mid starts with a space gives back both holes,
      when the first hole has no space. */
  lemma UnfillFill(t: Template, a: string, b: string)
    requires |t.mid| > 0 && t.mid[0] == ' '
    ensures NoSpace(a) ==> Unfill(t, Fill(t, a, b)) == Some((a, b))
  {
    if !NoSpace(a) { return; }
    var middle := a + t.mid + b;
    assert Fill(t, a, b) == t.head + middle + t.tail;
    StripAround(t.head, middle, t.tail);
    SplitJoined(a, t.mid, b);
  }

  // ---- the five replies -------------------------------------------------

  const CheerTemplate := Template(
    "PogChamp BITS DONATION!!! PogChamp Thank you so much @",
    " for the ",
    " bitties ! You're too kind! spoodLove")

  const MassGiftTemplate := Template(
    "spoodGLB GIFT SUB HYPE!! spoodGLB Thank you @",
    " for gifting ",
    " subs to the squadron! spoodLove")

  const SingleGiftTemplate := Template(
    "spoodGLB GIFT SUB HYPE!! spoodGLB Thank you ",
    " for gifting a sub to ",
    " spoodLove!")

  const NewSubHead := "spoodHype NEW SUB!!! spoodHype @"
  const NewSubTail := " just subscribed! Welcome to the party <3 spoodGLB"

  const ResubTemplate := Template(
    "spoodHype RESUB!!! spoodHype Welcome back @",
    " for ",
    " months spoodGLB")

  /** Reply to a chat message that carries bits; it names the user and the exact bit count
      (read back for user names without spaces, as Twitch names are). */
  function Cheer(user: string, bits: int): (r: string)
    ensures NoSpace(user) ==> ParseCheer(r) == Some((user, bits))
  {
    UserAndNumberRoundTrip(CheerTemplate, user, bits);
    Fill(CheerTemplate, user, Decimal.IntToString(bits))
  }

  /** Reply to a community ("mass") gift of `count` subscriptions; it names the gifter and the count. */
  function MassGift(user: string, count: int): (r: string)
    ensures NoSpace(user) ==> ParseMassGift(r) == Some((user, count))
  {
    UserAndNumberRoundTrip(MassGiftTemplate, user, count);
    Fill(MassGiftTemplate, user, Decimal.IntToString(count))
  }

  /** Reply to an individual gift that no community gift covered; it names gifter, then recipient. */
  function SingleGift(gifter: string, recipient: string): (r: string)
    ensures NoSpace(gifter) ==> ParseSingleGift(r) == Some((gifter, recipient))
  {
    UnfillFill(SingleGiftTemplate, gifter, recipient);
    Fill(SingleGiftTemplate, gifter, recipient)
  }

  /** Reply to a first subscription; any user name is read back from it. */
  function NewSub(user: string): (r: string)
    ensures ParseNewSub(r) == Some(user)
  {
    StripAround(NewSubHead, user, NewSubTail);
    NewSubHead + user + NewSubTail
  }

  /** Reply to a renewed subscription; it names the user and the cumulative months. */
  function Resub(user: string, months: int): (r: string)
    ensures NoSpace(user) ==> ParseResub(r) == Some((user, months))
  {
    UserAndNumberRoundTrip(ResubTemplate, user, months);
    Fill(ResubTemplate, user, Decimal.IntToString(months))
  }

  /** Reads a user and a number back from a reply with a numeric second hole. */
  function ParseUserAndNumber(t: Template, s: string): Option<(string, int)> {
    match Unfill(t, s)
    case None => None
    case Some((user, digits)) =>
      match Decimal.ParseInt(digits)
      case None => None
      case Some(n) => Some((user, n))
  }

  function ParseCheer(s: string): Option<(string, int)> {
    ParseUserAndNumber(CheerTemplate, s)
  }

  function ParseMassGift(s: string): Option<(string, int)> {
    ParseUserAndNumber(MassGiftTemplate, s)
  }

  function ParseSingleGift(s: string): Option<(string, string)> {
    Unfill(SingleGiftTemplate, s)
  }

  function ParseNewSub(s: string): Option<string> {
    Strip(NewSubHead, NewSubTail, s)
  }

  function ParseResub(s: string): Option<(string, int)> {
    ParseUserAndNumber(ResubTemplate, s)
  }

  lemma UserAndNumberRoundTrip(t: Template, user: string, n: int)
    requires |t.mid| > 0 && t.mid[0] == ' '
    ensures NoSpace(user) ==> ParseUserAndNumber(t, Fill(t, user, Decimal.IntToString(n))) == Some((user, n))
  {
    UnfillFill(t, user, Decimal.IntToString(n));
    Decimal.IntRoundTrip(n);
  }

}
