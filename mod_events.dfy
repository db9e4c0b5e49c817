/** The moderation-action callback: a PubSub moderation event (action, args, moderator)
    becomes at most one log embed for the team channel. The embed's timestamp is not modelled. */
module ModEvents {

  import opened Wrappers

  /** One `addField(name, value)` of an embed. */
  datatype Field = Field(name: string, value: string)

  /** A log entry: title, colour (the library resolves the hex strings to these integers) and fields in order. */
  datatype Embed = Embed(title: string, color: nat, fields: seq<Field>)

  /** The actions the callback reacts to. */
  datatype Action = Timeout | Ban | Unban | Untimeout | Vip

  function ActionName(a: Action): string {
    match a
    case Timeout => "timeout"
    case Ban => "ban"
    case Unban => "unban"
    case Untimeout => "untimeout"
    case Vip => "vip"
  }

  /** Recognises an action string; every other string is no action at all. */
  function ParseAction(s: string): (r: Option<Action>)
    ensures r.Some? ==> ActionName(r.value) == s
    ensures r.None? ==> forall a: Action :: ActionName(a) != s
  {
    if s == "timeout" then Some(Timeout)
    else if s == "ban" then Some(Ban)
    else if s == "unban" then Some(Unban)
    else if s == "untimeout" then Some(Untimeout)
    else if s == "vip" then Some(Vip)
    else None
  }

  const ChatEventTitle := "New Chat Event"
  const BrandedTitle := "**Spoodah** - New Chat Event"
  const TimeoutColor: nat := 0xff9600
  const BanColor: nat := 0xff0000
  const UnbanColor: nat := 0x00ff7f
  const VipColor: nat := 0xe281aa
  const NoReason := "Reason not provided."

  /** Array destructuring: a position past the end of `args` is `undefined`. */
  function Arg(args: seq<string>, i: nat): Option<string> {
    if i < |args| then Some(args[i]) else None
  }

  /** Template interpolation of a possibly undefined string. */
  function Show(v: Option<string>): string {
    match v
    case Some(s) => s
    case None => "undefined"
  }

  /** The Reason field: the reason itself when it is neither null/undefined nor empty. */
  function ReasonText(reason: Option<string>): string {
    if reason.Some? && reason.value != "" then reason.value else NoReason
  }

  function TimeoutSummary(target: string, duration: string, moderator: string): string {
    target + " was timed out for " + duration + " seconds by " + moderator + "."
  }

  function BanSummary(target: string, moderator: string): string {
    target + " was banned by " + moderator + "."
  }

  function UnbanSummary(target: string, moderator: string): string {
    target + " was un-banned by " + moderator + "."
  }

  function VipSummary(target: string): string {
    target + " was granted VIP by the broadcaster."
  }

  function Labels(e: Embed): seq<string> {
    seq(|e.fields|, i requires 0 <= i < |e.fields| => e.fields[i].name)
  }

  /** The embed one recognised action produces. */
  function EntryFor(a: Action, args: seq<string>, moderator: string): Embed {
    var target := Show(Arg(args, 0));
    match a
    case Timeout =>
      Embed(ChatEventTitle, TimeoutColor,
            [Field("Timeout", TimeoutSummary(target, Show(Arg(args, 1)), moderator)),
             Field("Reason", ReasonText(Arg(args, 2)))])
    case Ban =>
      Embed(ChatEventTitle, BanColor,
            [Field("Ban", BanSummary(target, moderator)),
             Field("Reason", ReasonText(Arg(args, 1)))])
    case Unban =>
      Embed(BrandedTitle, UnbanColor, [Field("Unban", UnbanSummary(target, moderator))])
    case Untimeout =>
      Embed(BrandedTitle, UnbanColor, [Field("Unban", UnbanSummary(target, moderator))])
    case Vip =>
      Embed(BrandedTitle, VipColor, [Field("VIP", VipSummary(target))])
  }

  /** The callback body: one embed for each of the five actions, nothing for any other string. */
  function FormatModAction(action: string, args: seq<string>, userName: string): (r: Option<Embed>)
    ensures r.Some? <==> action in {"timeout", "ban", "unban", "untimeout", "vip"}
    ensures r.Some? ==> r.value.title == (if action in {"timeout", "ban"} then ChatEventTitle else BrandedTitle)
    ensures action == "timeout" ==> r.Some? && r.value.color == 0xff9600 && Labels(r.value) == ["Timeout", "Reason"]
    ensures action == "ban" ==> r.Some? && r.value.color == 0xff0000 && Labels(r.value) == ["Ban", "Reason"]
    ensures action in {"unban", "untimeout"} ==> r.Some? && r.value.color == 0x00ff7f && Labels(r.value) == ["Unban"]
    ensures action == "vip" ==> r.Some? && r.value.color == 0xe281aa && Labels(r.value) == ["VIP"]
  {
    match ParseAction(action)
    case None => None
    case Some(a) => Some(EntryFor(a, args, userName))
  }

  /** Timeout and ban: the Reason field is the reason verbatim when one is given and not empty,
      and the fixed placeholder otherwise; the first field is the summary. */
  lemma ReasonOrPlaceholder(action: string, args: seq<string>, userName: string)
    requires action == "timeout" || action == "ban"
    ensures var r := FormatModAction(action, args, userName);
            var i := if action == "timeout" then 2 else 1;
            && r.Some? && |r.value.fields| == 2
            && (i < |args| && args[i] != "" ==> r.value.fields[1].value == args[i])
            && (i >= |args| || args[i] == "" ==> r.value.fields[1].value == "Reason not provided.")
            && r.value.fields[0].value ==
               (if action == "timeout"
                then Show(Arg(args, 0)) + " was timed out for " + Show(Arg(args, 1)) + " seconds by " + userName + "."
                else Show(Arg(args, 0)) + " was banned by " + userName + ".")
  {
  }

  /** `untimeout` is logged exactly as `unban` is, label and wording included. */
  lemma UntimeoutLoggedAsUnban(args: seq<string>, userName: string)
    ensures FormatModAction("untimeout", args, userName) == FormatModAction("unban", args, userName)
    ensures FormatModAction("untimeout", args, userName).value.fields ==
            [Field("Unban", Show(Arg(args, 0)) + " was un-banned by " + userName + ".")]
  {
  }

  /** The VIP entry names the target and credits the broadcaster; the moderator's name appears nowhere. */
  lemma VipIgnoresModerator(args: seq<string>, m1: string, m2: string)
    ensures FormatModAction("vip", args, m1) ==
            Some(Embed("**Spoodah** - New Chat Event", 0xe281aa,
                       [Field("VIP", Show(Arg(args, 0)) + " was granted VIP by the broadcaster.")]))
    ensures FormatModAction("vip", args, m1) == FormatModAction("vip", args, m2)
  {
  }

  /** A ban of alice by mod1 for spamming. */
  lemma BanExample()
    ensures FormatModAction("ban", ["alice", "spamming"], "mod1") ==
            Some(Embed("New Chat Event", 0xff0000,
                       [Field("Ban", "alice was banned by mod1."), Field("Reason", "spamming")]))
  {
    assert BanSummary("alice", "mod1") == "alice was banned by mod1.";
  }

  /** A ban without a reason gets the placeholder. */
  lemma BanWithoutReasonExample()
    ensures FormatModAction("ban", ["alice"], "mod1").value.fields[1] == Field("Reason", "Reason not provided.")
    ensures FormatModAction("ban", ["alice", ""], "mod1").value.fields[1] == Field("Reason", "Reason not provided.")
  {
  }

  lemma ActionNameRoundTrip(a: Action)
    ensures ParseAction(ActionName(a)) == Some(a)
  {
  }

}
