/** The approver that asks an operator over an id-ordered stream of messages. */
module TelegramApproval {
  import opened Common
  import opened Spiral
  import opened SpiralRun
  import opened SpiralRequests
  import opened Composition
  import opened ApprovalWords

  datatype IncomingMessage = IncomingMessage(updateId: nat, userId: int, chatId: int, text: string)

  type Stream = seq<IncomingMessage>

  ghost predicate Ordered(stream: Stream) {
    forall i, j :: 0 <= i < j < |stream| ==> stream[i].updateId < stream[j].updateId
  }

  /** How many messages of an ordered stream have an id below the offset. */
  function Below(stream: Stream, offset: nat): (n: nat)
    ensures n <= |stream|
    ensures n < |stream| ==> stream[n].updateId >= offset
    ensures n > 0 ==> stream[n - 1].updateId < offset
  {
    if stream == [] || stream[0].updateId >= offset then 0 else 1 + Below(stream[1..], offset)
  }

  /** What a fetch returns once `arrived` messages are there. */
  function Fetched(stream: Stream, arrived: nat, offset: nat): Stream
    requires arrived <= |stream|
  {
    if Below(stream, offset) <= arrived then stream[Below(stream, offset)..arrived] else []
  }

  lemma BelowIsExact(stream: Stream, offset: nat, i: nat)
    requires Ordered(stream) && i < |stream|
    ensures stream[i].updateId < offset <==> i < Below(stream, offset)
  {
  }

  /** A fetch returns the arrived messages at or above the offset, no others. */
  lemma FetchedIsFilter(stream: Stream, arrived: nat, offset: nat, m: IncomingMessage)
    requires Ordered(stream) && arrived <= |stream|
    ensures m in Fetched(stream, arrived, offset) <==> m in stream[..arrived] && m.updateId >= offset
  {
    var n := Below(stream, offset);
    if m in Fetched(stream, arrived, offset) {
      var k :| 0 <= k < arrived - n && stream[n..arrived][k] == m;
      BelowIsExact(stream, offset, n + k);
      hide Below, Ordered;
      assert stream[..arrived][n + k] == m;
    }
    if m in stream[..arrived] && m.updateId >= offset {
      var i :| 0 <= i < arrived && stream[..arrived][i] == m;
      BelowIsExact(stream, offset, i);
      hide Below, Ordered;
      assert stream[n..arrived][i - n] == m;
    }
  }

  lemma BelowNext(stream: Stream, i: nat)
    requires Ordered(stream) && i < |stream|
    ensures Below(stream, stream[i].updateId + 1) == i + 1
  {
    var offset := stream[i].updateId + 1;
    BelowIsExact(stream, offset, i);
    if i + 1 < |stream| {
      BelowIsExact(stream, offset, i + 1);
    }
  }

  /** Past the last message fetched, everything that has arrived is below; an empty fetch found it so. */
  lemma DrainNext(stream: Stream, arrived: nat, offset: nat)
    requires Ordered(stream) && Below(stream, offset) <= arrived <= |stream|
    ensures var pending := Fetched(stream, arrived, offset);
            if pending == [] then Below(stream, offset) == arrived
            else var next := pending[|pending| - 1].updateId + 1;
                 offset <= next && Below(stream, offset) < Below(stream, next) == arrived
  {
    hide Below, Ordered;
    if Below(stream, offset) < arrived {
      BelowNext(stream, arrived - 1);
      BelowIsExact(stream, offset, arrived - 1);
    }
  }

  predicate Decides(m: IncomingMessage, chatId: int, allowed: set<int>) {
    m.chatId == chatId && m.userId in allowed && ParseDecision(m.text).Some?
  }

  /** Message i is the one with the lowest id past the cursor that decides. */
  ghost predicate FirstDeciding(stream: Stream, chatId: int, allowed: set<int>, cursor: nat, i: nat) {
    && i < |stream| && stream[i].updateId >= cursor && Decides(stream[i], chatId, allowed)
    && forall j :: 0 <= j < i && stream[j].updateId >= cursor ==> !Decides(stream[j], chatId, allowed)
  }

  /** Of the first n messages, none past the cursor decides. */
  ghost predicate NoneDecided(stream: Stream, chatId: int, allowed: set<int>, cursor: nat, n: nat)
    requires n <= |stream|
  {
    forall i :: 0 <= i < n && stream[i].updateId >= cursor ==> !Decides(stream[i], chatId, allowed)
  }

  /** The message at the offset is the next one, and decides, or none of one more does. */
  lemma DecideNext(stream: Stream, chatId: int, allowed: set<int>, cursor: nat, offset: nat, n: nat)
    requires Ordered(stream) && n == Below(stream, offset) < |stream|
    requires cursor <= offset && NoneDecided(stream, chatId, allowed, cursor, n)
    ensures cursor <= stream[n].updateId + 1 && Below(stream, stream[n].updateId + 1) == n + 1
    ensures if Decides(stream[n], chatId, allowed) then FirstDeciding(stream, chatId, allowed, cursor, n)
            else NoneDecided(stream, chatId, allowed, cursor, n + 1)
  {
    hide Decides;
    BelowNext(stream, n);
  }

  /** What the bot was asked for, and how many messages had arrived when it answered. */
  datatype Fetch = Fetch(offset: nat, arrived: nat)

  /** The last of the first `posted` fetches was made at `cursor`, and found nothing. */
  ghost predicate DrainedBefore(stream: Stream, fetches: seq<Fetch>, posted: nat, cursor: nat) {
    0 < posted <= |fetches| && fetches[posted - 1] == Fetch(cursor, Below(stream, cursor))
  }

  /**
   * Messages arrive in the order of the stream; a fetch may find any number more than the one before. The bot
   * remembers every fetch, and for every message sent how many fetches came before it.
   */
  class TelegramBot {
    const stream: Stream
    const allowed: set<int>
    var arrived: nat
    var sent: seq<(int, string)>
    ghost var fetches: seq<Fetch>
    ghost var postedAfter: seq<nat>

    constructor (stream: Stream, allowed: set<int>)
      requires Ordered(stream)
      ensures Valid() && this.stream == stream && this.allowed == allowed
      ensures arrived == 0 && sent == [] && fetches == [] && postedAfter == []
    {
      this.stream, this.allowed := stream, allowed;
      arrived, sent, fetches, postedAfter := 0, [], [], [];
    }

    ghost predicate Valid()
      reads this
    {
      Ordered(stream) && arrived <= |stream| && |postedAfter| == |sent|
    }

    method GetUpdates(offset: nat) returns (messages: Stream)
      requires Valid()
      modifies this`arrived, this`fetches
      ensures Valid() && old(arrived) <= arrived
      ensures messages == Fetched(stream, arrived, offset)
      ensures fetches == old(fetches) + [Fetch(offset, arrived)]
    {
      var n: nat :| arrived <= n <= |stream|;
      arrived := n;
      messages := Fetched(stream, arrived, offset);
      fetches := fetches + [Fetch(offset, arrived)];
    }

    method SendMessage(chatId: int, text: string)
      requires Valid()
      modifies this`sent, this`postedAfter
      ensures Valid()
      ensures sent == old(sent) + [(chatId, text)]
      ensures postedAfter == old(postedAfter) + [|fetches|]
    {
      sent := sent + [(chatId, text)];
      postedAfter := postedAfter + [|fetches|];
    }

    predicate IsAuthorized(m: IncomingMessage) {
      m.userId in allowed
    }
  }

  function GateText(request: ApprovalRequest): string {
    "TalisMan gate: " + request.gateId + "\n" + request.message + "\n\nReply APPROVE or REJECT."
  }

  class TelegramApprover {
    const bot: TelegramBot
    const chatId: int
    var offset: nat

    constructor (bot: TelegramBot, chatId: int)
      requires bot.Valid()
      ensures Valid() && this.bot == bot && this.chatId == chatId && offset == 0
    {
      this.bot, this.chatId := bot, chatId;
      offset := 0;
    }

    /** The offset never passes a message that has not arrived. */
    ghost predicate Valid()
      reads this, bot
    {
      bot.Valid() && Below(bot.stream, offset) <= bot.arrived
    }

    /** Move the offset past everything that has arrived: the last fetch was made there, and found nothing. */
    method DrainPendingUpdates()
      requires Valid()
      modifies this, bot`arrived, bot`fetches
      ensures Valid()
      ensures old(offset) <= offset && old(bot.arrived) <= bot.arrived
      ensures Below(bot.stream, offset) == bot.arrived
      ensures old(bot.fetches) < bot.fetches && DrainedBefore(bot.stream, bot.fetches, |bot.fetches|, offset)
    {
      hide Below, Fetched, Ordered;
      while true
        invariant Valid() && old(offset) <= offset && old(bot.arrived) <= bot.arrived
        invariant old(bot.fetches) <= bot.fetches
        decreases |bot.stream| - Below(bot.stream, offset)
      {
        var pending := bot.GetUpdates(offset);
        DrainNext(bot.stream, bot.arrived, offset);
        if pending == [] {
          break;
        }
        offset := pending[|pending| - 1].updateId + 1;
      }
    }

    /** One fetch: consume the messages up to and including the first that decides. */
    method Poll(ghost cursor: nat) returns (decision: Option<Decision>, ghost decider: nat)
      requires Valid() && cursor <= offset
      requires NoneDecided(bot.stream, chatId, bot.allowed, cursor, Below(bot.stream, offset))
      modifies this, bot`arrived, bot`fetches
      ensures Valid() && cursor <= offset && old(bot.arrived) <= bot.arrived
      ensures bot.fetches == old(bot.fetches) + [Fetch(old(offset), bot.arrived)]
      ensures decision.Some? ==>
                && FirstDeciding(bot.stream, chatId, bot.allowed, cursor, decider)
                && decision == ParseDecision(bot.stream[decider].text)
                && offset == bot.stream[decider].updateId + 1
      ensures decision.None? ==>
                && Below(bot.stream, offset) == bot.arrived
                && NoneDecided(bot.stream, chatId, bot.allowed, cursor, bot.arrived)
    {
      hide ParseDecision, Below, NoneDecided, FirstDeciding, Ordered;
      ghost var first := Below(bot.stream, offset);
      var messages := bot.GetUpdates(offset);
      assert messages == bot.stream[first..bot.arrived];
      hide Fetched;
      decision, decider := None, 0;
      for k := 0 to |messages|
        invariant Valid() && cursor <= offset && old(bot.arrived) <= bot.arrived
        invariant bot.fetches == old(bot.fetches) + [Fetch(old(offset), bot.arrived)]
        invariant first <= bot.arrived && messages == bot.stream[first..bot.arrived]
        invariant Below(bot.stream, offset) == first + k
        invariant NoneDecided(bot.stream, chatId, bot.allowed, cursor, first + k)
      {
        var message := messages[k];
        decider := first + k;
        DecideNext(bot.stream, chatId, bot.allowed, cursor, offset, decider);
        offset := message.updateId + 1;
        if message.chatId != chatId {
          continue;
        }
        if !bot.IsAuthorized(message) {
          continue;
        }
        var parsed := ParseDecision(message.text);
        if parsed.Some? {
          return parsed, decider;
        }
      }
    }

    /**
     * Post the gate and wait for a reply, fetching at most `polls` times; `None` if no reply has decided by
     * then. The gate is posted after `posted` fetches, the last of which, one of this call's own, was made at
     * `cursor` and found nothing; the reply is the first one past that cursor that decides, at `decider`.
     */
    method RequestApproval(request: ApprovalRequest, polls: nat)
      returns (decision: Option<Decision>, ghost posted: nat, ghost cursor: nat, ghost decider: nat)
      requires Valid()
      modifies this, bot
      ensures Valid()
      ensures bot.sent == old(bot.sent) + [(chatId, "TalisMan gate: " + request.gateId + "\n" + request.message
                                            + "\n\nReply APPROVE or REJECT.")]
      ensures bot.postedAfter == old(bot.postedAfter) + [posted]
      ensures old(bot.fetches) <= bot.fetches && old(|bot.fetches|) < posted
      ensures DrainedBefore(bot.stream, bot.fetches, posted, cursor)
      // so whatever had arrived before the gate was asked about, or by the last fetch before the post, is stale
      ensures old(offset) <= cursor <= offset && old(bot.arrived) <= Below(bot.stream, cursor)
      ensures decision.Some? ==>
                && FirstDeciding(bot.stream, chatId, bot.allowed, cursor, decider)
                && decision == ParseDecision(bot.stream[decider].text)
                && offset == bot.stream[decider].updateId + 1
                && posted < |bot.fetches| <= posted + polls
      ensures decision.None? ==>
                && Below(bot.stream, offset) == bot.arrived
                && NoneDecided(bot.stream, chatId, bot.allowed, cursor, bot.arrived)
                && |bot.fetches| == posted + polls
    {
      ghost var text := "TalisMan gate: " + request.gateId + "\n" + request.message + "\n\nReply APPROVE or REJECT.";
      assert GateText(request) == text;
      hide ParseDecision, GateText, Below, FirstDeciding, Ordered;
      DrainPendingUpdates();
      cursor, decider, decision, posted := offset, 0, None, |bot.fetches|;
      bot.SendMessage(chatId, GateText(request));
      NothingDecidedYet(bot.stream, chatId, bot.allowed, cursor);
      hide NoneDecided;
      for n := 0 to polls
        invariant Valid() && cursor <= offset && decision == None
        invariant bot.sent == old(bot.sent) + [(chatId, text)]
        invariant bot.postedAfter == old(bot.postedAfter) + [posted]
        invariant old(bot.fetches) <= bot.fetches && |bot.fetches| == posted + n
        invariant DrainedBefore(bot.stream, bot.fetches, posted, cursor)
        invariant Below(bot.stream, offset) == bot.arrived
        invariant NoneDecided(bot.stream, chatId, bot.allowed, cursor, bot.arrived)
      {
        decision, decider := Poll(cursor);
        if decision.Some? {
          return;
        }
      }
    }
  }

  lemma NothingDecidedYet(stream: Stream, chatId: int, allowed: set<int>, cursor: nat)
    requires Ordered(stream)
    ensures NoneDecided(stream, chatId, allowed, cursor, Below(stream, cursor))
  {
    forall i | 0 <= i < Below(stream, cursor)
      ensures stream[i].updateId < cursor
    {
      BelowIsExact(stream, cursor, i);
    }
  }

  // ---------------------------------------------------------------- a gated run over Telegram

  ghost predicate StrictlyIncreasing(s: seq<nat>) {
    forall i, j :: 0 <= i < j < |s| ==> s[i] < s[j]
  }

  /** The messages that post the requests: each names its gate and says what is asked. */
  function Posts(chatId: int, requests: seq<ApprovalRequest>): seq<(int, string)> {
    seq(|requests|, i requires 0 <= i < |requests| =>
      (chatId, "TalisMan gate: " + requests[i].gateId + "\n" + requests[i].message + "\n\nReply APPROVE or REJECT."))
  }

  lemma PostsAppend(chatId: int, requests: seq<ApprovalRequest>, request: ApprovalRequest)
    ensures Posts(chatId, requests + [request]) ==
            Posts(chatId, requests) + [(chatId, "TalisMan gate: " + request.gateId + "\n" + request.message
                                        + "\n\nReply APPROVE or REJECT.")]
  {
  }

  /**
   * The i-th gate was posted after `posts[i]` fetches, and the last of them, made at `cursors[i]` and since the
   * gate before (or the `since` fetches made earlier), found nothing.
   */
  ghost predicate PostedDrained(stream: Stream, fetches: seq<Fetch>, since: nat, posts: seq<nat>, cursors: seq<nat>) {
    && |posts| == |cursors|
    && (forall i :: 0 <= i < |posts| ==> since < posts[i] && DrainedBefore(stream, fetches, posts[i], cursors[i]))
    && StrictlyIncreasing(posts)
  }

  /**
   * Each answer is what the first deciding message past its gate's cursor says; later gates are drained past the
   * messages that decided earlier ones, so deciding messages follow each other and none decided twice.
   */
  ghost predicate DecidedBy(stream: Stream, chatId: int, allowed: set<int>, answers: seq<Decision>,
                            cursors: seq<nat>, deciders: seq<nat>)
  {
    && |answers| == |deciders| <= |cursors|
    && StrictlyIncreasing(deciders)
    && (forall i :: 0 <= i < |answers| ==>
          && FirstDeciding(stream, chatId, allowed, cursors[i], deciders[i])
          && ParseDecision(stream[deciders[i]].text) == Some(answers[i]))
    && (forall i, j :: 0 <= i < |deciders| && i < j < |cursors| ==> stream[deciders[i]].updateId < cursors[j])
  }

  ghost predicate AllBelow(stream: Stream, deciders: seq<nat>, offset: nat) {
    forall i :: 0 <= i < |deciders| ==> deciders[i] < |stream| && stream[deciders[i]].updateId < offset
  }

  lemma AnswersAreFinal(stream: Stream, chatId: int, allowed: set<int>, answers: seq<Decision>,
                        cursors: seq<nat>, deciders: seq<nat>)
    requires DecidedBy(stream, chatId, allowed, answers, cursors, deciders)
    ensures forall d :: d in answers ==> d == Approve || d == Reject
  {
    forall i | 0 <= i < |answers|
      ensures answers[i] == Approve || answers[i] == Reject
    {
      assert FirstDeciding(stream, chatId, allowed, cursors[i], deciders[i]);
      DecidesExactlyCommands(stream[deciders[i]].text);
    }
  }

  /** One more gate is posted. */
  lemma PostedNext(stream: Stream, fetches: seq<Fetch>, fetches': seq<Fetch>, since: nat,
                   posts: seq<nat>, cursors: seq<nat>, posted: nat, cursor: nat)
    requires PostedDrained(stream, fetches, since, posts, cursors)
    requires fetches <= fetches' && since <= |fetches| < posted && DrainedBefore(stream, fetches', posted, cursor)
    ensures PostedDrained(stream, fetches', since, posts + [posted], cursors + [cursor])
  {
    hide Below;
    forall i | 0 <= i < |posts|
      ensures since < posts[i] < posted && DrainedBefore(stream, fetches', posts[i], cursors[i])
    {
      assert DrainedBefore(stream, fetches, posts[i], cursors[i]);
    }
  }

  /** The next gate is posted past all messages that have decided. */
  lemma AskedNext(stream: Stream, chatId: int, allowed: set<int>, answers: seq<Decision>,
                  cursors: seq<nat>, deciders: seq<nat>, offset: nat, cursor: nat)
    requires DecidedBy(stream, chatId, allowed, answers, cursors, deciders) && |cursors| == |deciders|
    requires AllBelow(stream, deciders, offset) && offset <= cursor
    ensures DecidedBy(stream, chatId, allowed, answers, cursors + [cursor], deciders)
    ensures forall later :: later >= cursor ==> AllBelow(stream, deciders, later)
  {
    hide ParseDecision, FirstDeciding;
  }

  /** The gate just posted is decided by a later message, and fewer messages are left. */
  lemma DecidedNext(stream: Stream, chatId: int, allowed: set<int>, answers: seq<Decision>,
                    cursors: seq<nat>, deciders: seq<nat>, offset: nat, cursor: nat, decider: nat, d: Decision)
    requires Ordered(stream) && DecidedBy(stream, chatId, allowed, answers, cursors, deciders)
    requires |cursors| == |deciders| + 1 && cursors[|deciders|] == cursor
    requires AllBelow(stream, deciders, offset) && offset <= cursor
    requires FirstDeciding(stream, chatId, allowed, cursor, decider) && ParseDecision(stream[decider].text) == Some(d)
    ensures DecidedBy(stream, chatId, allowed, answers + [d], cursors, deciders + [decider])
    ensures AllBelow(stream, deciders + [decider], stream[decider].updateId + 1)
    ensures Below(stream, offset) < Below(stream, stream[decider].updateId + 1)
  {
    hide ParseDecision, Below;
    LaterThanAll(stream, deciders, offset, decider);
    BelowNext(stream, decider);
    BelowIsExact(stream, offset, decider);
    hide FirstDeciding, Ordered;
  }

  /** A message past the offset is later than all those below it. */
  lemma LaterThanAll(stream: Stream, deciders: seq<nat>, offset: nat, decider: nat)
    requires Ordered(stream) && AllBelow(stream, deciders, offset)
    requires decider < |stream| && stream[decider].updateId >= offset
    ensures forall i :: 0 <= i < |deciders| ==> deciders[i] < decider
    ensures AllBelow(stream, deciders + [decider], stream[decider].updateId + 1)
  {
  }

  /** An interrupted run with one more answer: what the driver's state and requests become. */
  lemma RunAnswered(g: Graph, job: Job, answers: seq<Decision>, d: Decision)
    requires var m := Drive(g, Start(job), answers); AtGate(g, m) && Settle(g, m) == m
    ensures var m, m' := Drive(g, Start(job), answers), Drive(g, Start(job), answers + [d]);
            && m' == Settle(g, Resume(g, m, d)) && Settle(g, m') == m'
            && RequestOf(PayloadAt(g, m)) == RequestFor(job, NextActivePhase(m.state).value)
            && AnsweredRequests(job, m'.log) == RequestsOf(job, m)
            && RequestsOf(job, m) == AnsweredRequests(job, m.log) + [RequestOf(PayloadAt(g, m))]
            && Answers(m'.log) == Answers(m.log) + [d]
  {
    hide Drive, Settle, Resume, Reachable, AnsweredRequests, RequestOf, RequestFor, PayloadAt;
    var m := Drive(g, Start(job), answers);
    StartReachable(g, job);
    DriveReachable(g, job, Start(job), answers);
    DriveOneMore(g, Start(job), answers, d);
    PayloadAtGate(g, job, m, d);
    AnsweredInterrupt(g, job, m, d, []);
    ResumeConsumesOne(g, m, d);
    SettleConsumesNothing(g, Resume(g, m, d));
  }

  /** The request for p was answered with APPROVE, by the first message past its cursor that decides. */
  ghost predicate ApprovedByReply(stream: Stream, chatId: int, allowed: set<int>, job: Job, log: seq<Event>,
                                  cursors: seq<nat>, deciders: seq<nat>, p: Phase)
  {
    exists i: int ::
      && ApprovedAt(job, log, p, i) && i < |cursors| && i < |deciders|
      && FirstDeciding(stream, chatId, allowed, cursors[i], deciders[i])
      && ParseDecision(stream[deciders[i]].text) == Some(Approve)
  }

  lemma CompletedByReply(g: Graph, job: Job, stream: Stream, chatId: int, allowed: set<int>,
                         answers: seq<Decision>, cursors: seq<nat>, deciders: seq<nat>)
    requires DecidedBy(stream, chatId, allowed, answers, cursors, deciders)
    requires Answers(Drive(g, Start(job), answers).log) == answers
    ensures forall p :: p in g.gatePhases ==>
              (p in Drive(g, Start(job), answers).state.completedPhases <==>
               ApprovedByReply(stream, chatId, allowed, job, Drive(g, Start(job), answers).log, cursors, deciders, p))
  {
    hide Drive, Reachable, FirstDeciding, ParseDecision, Answers, AnsweredRequests;
    var m := Drive(g, Start(job), answers);
    StartReachable(g, job);
    DriveReachable(g, job, Start(job), answers);
    forall p | p in g.gatePhases
      ensures p in m.state.completedPhases <==>
              ApprovedByReply(stream, chatId, allowed, job, m.log, cursors, deciders, p)
    {
      CompletedIffApproved(g, job, m, p);
    }
  }

  /**
   * The driver with this approver. The messages sent are exactly those that post the requests of the run, no
   * gate twice, each after a fetch that found nothing; each answer is that of the first message past that
   * fetch that decides. `None` if a gate was not decided within `polls` fetches, for want of such a message.
   */
  method RunOverTelegram(app: TalismanApp, job: Job, approver: TelegramApprover, polls: nat)
    returns (final: Option<SpiralState>, ghost answers: seq<Decision>,
             ghost posts: seq<nat>, ghost cursors: seq<nat>, ghost deciders: seq<nat>)
    requires approver.Valid()
    modifies app, approver, approver.bot
    ensures approver.Valid()
    ensures app.checkpoint == Drive(app.graph, Start(job), answers) && Answers(app.checkpoint.log) == answers
    ensures final == if Finished(app.checkpoint) then Some(app.checkpoint.state) else None
    ensures approver.bot.sent == old(approver.bot.sent) + Posts(approver.chatId, RequestsOf(job, app.checkpoint))
    ensures NoDuplicates(GateIdsOf(RequestsOf(job, app.checkpoint)))
    ensures approver.bot.postedAfter == old(approver.bot.postedAfter) + posts
    ensures PostedDrained(approver.bot.stream, approver.bot.fetches, old(|approver.bot.fetches|), posts, cursors)
    ensures DecidedBy(approver.bot.stream, approver.chatId, approver.bot.allowed, answers, cursors, deciders)
    ensures |cursors| == |answers| + if final.Some? then 0 else 1
    // what the operator decided: a gated phase is completed exactly if its own request was approved by such a reply
    ensures forall p :: p in app.graph.gatePhases ==>
              (p in app.checkpoint.state.completedPhases <==>
               ApprovedByReply(approver.bot.stream, approver.chatId, approver.bot.allowed, job, app.checkpoint.log,
                               cursors, deciders, p))
    ensures AllBelow(approver.bot.stream, deciders, approver.offset)
    ensures final.None? ==>
              && NoneDecided(approver.bot.stream, approver.chatId, approver.bot.allowed, cursors[|answers|],
                             approver.bot.arrived)
              && |approver.bot.fetches| == posts[|answers|] + polls
  {
    hide ParseDecision, Below, AtGate, Drive, Settle, Resume, PayloadAt, DecidedBy, FirstDeciding, NoneDecided;
    hide AnsweredRequests, RequestOf, RequestFor, Posts, PostedDrained, NoDuplicates, DrainedBefore, NextActivePhase;
    hide RequestsOf, Finished, AllBelow, Ordered, GateText, GateIdsOf, ApprovedByReply, Answers;
    ghost var stream, chatId, allowed := approver.bot.stream, approver.chatId, approver.bot.allowed;
    ghost var sent, since := approver.bot.sent, |approver.bot.fetches|;
    answers, posts, cursors, deciders := [], [], [], [];
    NothingYet(app.graph, job, stream, chatId, allowed, approver.bot.fetches, since, approver.offset);
    app.checkpoint := Start(job);
    var interrupt := app.Invoke(None);
    while interrupt.Some?
      invariant approver.Valid() && since <= |approver.bot.fetches|
      invariant app.checkpoint == Drive(app.graph, Start(job), answers) && Answers(app.checkpoint.log) == answers
      invariant Settle(app.graph, app.checkpoint) == app.checkpoint
      invariant interrupt.None? <==> Finished(app.checkpoint)
      invariant interrupt.Some? ==>
                  AtGate(app.graph, app.checkpoint) && interrupt.value == PayloadAt(app.graph, app.checkpoint)
      invariant approver.bot.sent == sent + Posts(chatId, AnsweredRequests(job, app.checkpoint.log))
      invariant approver.bot.postedAfter == old(approver.bot.postedAfter) + posts
      invariant PostedDrained(stream, approver.bot.fetches, since, posts, cursors)
      invariant DecidedBy(stream, chatId, allowed, answers, cursors, deciders)
      invariant |posts| == |cursors| == |deciders| == |answers|
      invariant AllBelow(stream, deciders, approver.offset)
      decreases |stream| - Below(stream, approver.offset)
    {
      ghost var offset, fetches := approver.offset, approver.bot.fetches;
      ghost var requests := AnsweredRequests(job, app.checkpoint.log);
      var request := RequestOf(interrupt.value);
      var decision, posted, cursor, decider := approver.RequestApproval(request, polls);
      RunAnswered(app.graph, job, answers, if decision.Some? then decision.value else Approve);
      PostsAppend(chatId, requests, request);
      PostedNext(stream, fetches, approver.bot.fetches, since, posts, cursors, posted, cursor);
      AskedNext(stream, chatId, allowed, answers, cursors, deciders, offset, cursor);
      posts, cursors := posts + [posted], cursors + [cursor];
      if decision.None? {
        RequestedOnceOverTelegram(app.graph, job, stream, chatId, allowed, answers, cursors, deciders);
        CompletedByReply(app.graph, job, stream, chatId, allowed, answers, cursors, deciders);
        return None, answers, posts, cursors, deciders;
      }
      DecidedNext(stream, chatId, allowed, answers, cursors, deciders, offset, cursor, decider, decision.value);
      answers, deciders := answers + [decision.value], deciders + [decider];
      interrupt := app.Invoke(decision);
    }
    RequestedOnceOverTelegram(app.graph, job, stream, chatId, allowed, answers, cursors, deciders);
    NothingPending(job, app.checkpoint);
    CompletedByReply(app.graph, job, stream, chatId, allowed, answers, cursors, deciders);
    final := Some(app.checkpoint.state);
  }

  lemma RequestedOnceOverTelegram(g: Graph, job: Job, stream: Stream, chatId: int, allowed: set<int>,
                                  answers: seq<Decision>, cursors: seq<nat>, deciders: seq<nat>)
    requires DecidedBy(stream, chatId, allowed, answers, cursors, deciders)
    ensures NoDuplicates(GateIdsOf(RequestsOf(job, Drive(g, Start(job), answers))))
  {
    AnswersAreFinal(stream, chatId, allowed, answers, cursors, deciders);
    RequestedOnce(g, job, answers);
  }

  lemma NothingPending(job: Job, m: Machine)
    requires Finished(m)
    ensures RequestsOf(job, m) == AnsweredRequests(job, m.log)
  {
  }

  /** Before the first gate. */
  lemma NothingYet(g: Graph, job: Job, stream: Stream, chatId: int, allowed: set<int>, fetches: seq<Fetch>,
                   since: nat, offset: nat)
    ensures var m := Settle(g, Start(job));
            && Drive(g, Start(job), []) == m && Settle(g, m) == m
            && Posts(chatId, AnsweredRequests(job, m.log)) == [] && Answers(m.log) == []
    ensures PostedDrained(stream, fetches, since, [], [])
    ensures DecidedBy(stream, chatId, allowed, [], [], []) && AllBelow(stream, [], offset)
  {
    FirstInterrupt(g, job, []);
    SettleConsumesNothing(g, Start(job));
  }
}
