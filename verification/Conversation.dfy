/** One conversation and its turns.

  Sending a message runs in a transaction that locks the conversation row; finalising an
  assistant reply and linking a message to its runs are single updates of the message row and take
  no lock. The send is therefore a machine of several steps: those updates fall between them, while
  archive, unarchive, rename and other sends have to wait.
 */
module Conversation {
  import opened Results

  datatype Role = User | Assistant

  datatype Status = Queued | Running | WaitingHuman | WaitingUser | Completed | Failed | Cancelled

  /** The runs a message is linked to. */
  datatype Links = Links(task: Option<string>, agent: Option<string>)

  const UNLINKED := Links(None, None)

  datatype Message = Message(
    seqNo: nat, role: Role, status: Status, content: Option<string>,
    clientId: Option<string>, replyTo: Option<string>, links: Links)

  datatype Conv = Conv(owner: string, active: bool, title: string, nextSeqNo: nat, revision: nat)

  type Messages = map<string, Message>

  datatype SendInput = SendInput(owner: string, clientId: string, content: string, userId: string, assistantId: string)

  datatype SendResult =
    | Turn(userId: string, assistantId: string, replay: bool)
    | Thrown(code: string)

  predicate InFlight(s: Status) { s == Queued || s == Running || s == WaitingHuman || s == WaitingUser }

  predicate AssistantInFlight(m: Message) { m.role == Assistant && InFlight(m.status) }

  // ---- The statements ----

  predicate HasClientId(ms: Messages, clientId: string) {
    exists id :: id in ms && ms[id].role == User && ms[id].clientId == Some(clientId)
  }

  predicate HasInFlight(ms: Messages) {
    exists id :: id in ms && AssistantInFlight(ms[id])
  }

  predicate HasReply(ms: Messages, userId: string) {
    exists id :: id in ms && ms[id].role == Assistant && ms[id].replyTo == Some(userId)
  }

  predicate UniqueClientIds(ms: Messages) {
    forall i, j | i in ms && j in ms && ms[i].role == User && ms[j].role == User ::
      ms[i].clientId.Some? && ms[i].clientId == ms[j].clientId ==> i == j
  }

  predicate UniqueReplies(ms: Messages) {
    forall i, j | i in ms && j in ms && ms[i].role == Assistant && ms[j].role == Assistant ::
      ms[i].replyTo == ms[j].replyTo ==> i == j
  }

  function ByClientId(ms: Messages, clientId: string): (id: string)
    requires UniqueClientIds(ms) && HasClientId(ms, clientId)
    ensures id in ms && ms[id].role == User && ms[id].clientId == Some(clientId)
  {
    var id :| id in ms && ms[id].role == User && ms[id].clientId == Some(clientId);
    id
  }

  function ReplyOf(ms: Messages, userId: string): (id: string)
    requires UniqueReplies(ms) && HasReply(ms, userId)
    ensures id in ms && ms[id].role == Assistant && ms[id].replyTo == Some(userId)
  {
    var id :| id in ms && ms[id].role == Assistant && ms[id].replyTo == Some(userId);
    id
  }

  /** The client id was used before: replay the pair, or refuse other content. */
  function Replay(ms: Messages, input: SendInput): SendResult
    requires UniqueClientIds(ms) && UniqueReplies(ms) && HasClientId(ms, input.clientId)
  {
    var existing := ByClientId(ms, input.clientId);
    if ms[existing].content != Some(input.content) then Thrown("CONVERSATION_MESSAGE_IDEMPOTENCY_CONFLICT")
    else if HasReply(ms, existing) then Turn(existing, ReplyOf(ms, existing), true)
    else Thrown("CONVERSATION_MESSAGE_NOT_FOUND")
  }

  function UserMessage(input: SendInput, n: nat): Message {
    Message(n, User, Completed, Some(input.content), Some(input.clientId), None, UNLINKED)
  }

  function AssistantMessage(input: SendInput, n: nat): Message {
    Message(n, Assistant, Queued, None, None, Some(input.userId), UNLINKED)
  }

  function Inserted(ms: Messages, input: SendInput, start: nat): Messages {
    ms[input.userId := UserMessage(input, start)][input.assistantId := AssistantMessage(input, start + 1)]
  }

  function Allocated(c: Conv): Conv { c.(nextSeqNo := c.nextSeqNo + 2, revision := c.revision + 1) }

  /** The message ids are the caller's; the primary key refuses one that is taken. */
  predicate IdsFree(ms: Messages, input: SendInput) {
    input.userId !in ms && input.assistantId !in ms && input.userId != input.assistantId
  }

  /** The updates of one message. Completing, failing and cancelling touch an assistant row whatever its
    status, and link it to the runs that are given. */
  datatype Update =
    | Complete(id: string, text: string, links: Links)
    | Fail(id: string, links: Links)
    | Cancel(id: string, links: Links)
    | LinkTask(id: string, userId: string, taskRun: string)
    | LinkAgent(id: string, agentRun: string)

  /** An empty run id counts as none given. */
  predicate Given(run: Option<string>) { run.Some? && run.value != "" }

  function Linked(had: Links, given: Links): Links {
    Links(if Given(given.task) then given.task else had.task, if Given(given.agent) then given.agent else had.agent)
  }

  /** The row is one that the update's conditions select. */
  predicate Selects(ms: Messages, u: Update) {
    u.id in ms && if u.LinkTask? then ms[u.id].replyTo == Some(u.userId) else u.LinkAgent? || ms[u.id].role == Assistant
  }

  function Updated(m: Message, u: Update): Message {
    match u
    case Complete(_, text, links) => m.(status := Completed, content := Some(text), links := Linked(m.links, links))
    case Fail(_, links) => m.(status := Failed, links := Linked(m.links, links))
    case Cancel(_, links) => m.(status := Cancelled, links := Linked(m.links, links))
    case LinkTask(_, _, taskRun) => m.(links := m.links.(task := Some(taskRun)))
    case LinkAgent(_, agentRun) => m.(links := m.links.(agent := Some(agentRun)))
  }

  function Change(ms: Messages, u: Update): Messages {
    if Selects(ms, u) then ms[u.id := Updated(ms[u.id], u)] else ms
  }

  // ---- The machine ----

  /** How far the send transaction that holds the row lock has come. */
  datatype Pending =
    | Idle
    | Locked(input: SendInput)
    | NewClientId(input: SendInput)
    | NoneInFlight(input: SendInput)

  datatype State = State(conv: Conv, messages: Messages, pending: Pending)

  datatype Step =
    | Begin(input: SendInput)
    | LookUpClientId
    | LookUpInFlight
    | Insert
    | Abort
    | ChangeMessage(u: Update)
    | SetActive(owner: string, active: bool)
    | Rename(owner: string, title: string, ifRevision: Option<nat>)

  predicate Enabled(s: State, step: Step) {
    match step
    case Begin(input) => s.pending.Idle? && input.owner == s.conv.owner && s.conv.active
    case LookUpClientId => s.pending.Locked?
    case LookUpInFlight => s.pending.NewClientId?
    case Insert => s.pending.NoneInFlight? && IdsFree(s.messages, s.pending.input)
    case Abort => !s.pending.Idle?
    case ChangeMessage(_) => true
    case SetActive(_, _) => s.pending.Idle?
    case Rename(_, _, _) => s.pending.Idle?
  }

  function Next(s: State, step: Step): State
    requires Enabled(s, step)
  {
    match step
    case Begin(input) => s.(pending := Locked(input))
    case LookUpClientId =>
      if HasClientId(s.messages, s.pending.input.clientId) then s.(pending := Idle)
      else s.(pending := NewClientId(s.pending.input))
    case LookUpInFlight =>
      if HasInFlight(s.messages) then s.(pending := Idle) else s.(pending := NoneInFlight(s.pending.input))
    case Insert =>
      State(Allocated(s.conv), Inserted(s.messages, s.pending.input, s.conv.nextSeqNo), Idle)
    case Abort => s.(pending := Idle)
    case ChangeMessage(u) => s.(messages := Change(s.messages, u))
    case SetActive(owner, active) =>
      if owner == s.conv.owner then s.(conv := s.conv.(active := active, revision := s.conv.revision + 1)) else s
    case Rename(owner, title, ifRevision) =>
      if owner == s.conv.owner && (ifRevision.Some? ==> ifRevision.value == s.conv.revision)
      then s.(conv := s.conv.(title := title, revision := s.conv.revision + 1)) else s
  }

  ghost predicate Runs(s: State, steps: seq<Step>, t: State)
    decreases |steps|
  {
    if steps == [] then s == t else Enabled(s, steps[0]) && Runs(Next(s, steps[0]), steps[1..], t)
  }

  // ---- The transcript invariant ----

  /** What every message looks like, by its number. */
  ghost predicate WellPlaced(s: State, id: string)
    requires id in s.messages
  {
    var m := s.messages[id];
    && 1 <= m.seqNo < s.conv.nextSeqNo
    && (m.role == User <==> m.seqNo % 2 == 1)
    && (m.role == User ==>
          m.status == Completed && m.content.Some? && m.clientId.Some? && m.replyTo == None && m.links.task == None)
    && (m.role == Assistant ==>
          && m.clientId == None && m.replyTo.Some? && m.replyTo.value in s.messages
          && s.messages[m.replyTo.value].seqNo == m.seqNo - 1)
    && (AssistantInFlight(m) ==> m.seqNo == s.conv.nextSeqNo - 1)
  }

  ghost predicate DistinctNumbers(ms: Messages) {
    forall i, j :: i in ms && j in ms && ms[i].seqNo == ms[j].seqNo ==> i == j
  }

  ghost predicate NumberTaken(ms: Messages, n: nat) {
    exists id :: id in ms && ms[id].seqNo == n
  }

  ghost predicate AllPlaced(s: State) {
    forall id {:trigger WellPlaced(s, id)} :: id in s.messages ==> WellPlaced(s, id)
  }

  ghost predicate Transcript(s: State) {
    && s.conv.nextSeqNo % 2 == 1
    && AllPlaced(s)
    && DistinctNumbers(s.messages)
    && (forall n :: 1 <= n < s.conv.nextSeqNo ==> NumberTaken(s.messages, n))
    && UniqueClientIds(s.messages)
  }

  /** What the lookups of a send in progress found still holds when it inserts. */
  ghost predicate PendingHolds(s: State) {
    && (s.pending.NewClientId? || s.pending.NoneInFlight? ==> !HasClientId(s.messages, s.pending.input.clientId))
    && (s.pending.NoneInFlight? ==> !HasInFlight(s.messages))
  }

  ghost predicate Inv(s: State) {
    Transcript(s) && PendingHolds(s)
  }

  function Start(owner: string, title: string): State {
    State(Conv(owner, true, title, 1, 1), map[], Idle)
  }

  lemma TranscriptHasUniqueReplies(s: State)
    requires Transcript(s)
    ensures UniqueReplies(s.messages)
  {
    forall i, j | i in s.messages && j in s.messages && s.messages[i].role == Assistant && s.messages[j].role == Assistant
                  && s.messages[i].replyTo == s.messages[j].replyTo
      ensures i == j
    {
      assert WellPlaced(s, i) && WellPlaced(s, j);
    }
  }

  lemma InsertKeepsPlacement(s: State, id: string)
    requires Inv(s) && Enabled(s, Insert) && id in Next(s, Insert).messages
    ensures WellPlaced(Next(s, Insert), id)
  {
    if id in s.messages {
      assert WellPlaced(s, id);
      assert !AssistantInFlight(s.messages[id]);
    }
  }

  lemma InsertKeepsNumbers(s: State)
    requires Inv(s) && Enabled(s, Insert)
    ensures DistinctNumbers(Next(s, Insert).messages)
    ensures forall k :: 1 <= k < s.conv.nextSeqNo + 2 ==> NumberTaken(Next(s, Insert).messages, k)
  {
    var ms := Next(s, Insert).messages;
    var input, n := s.pending.input, s.conv.nextSeqNo;
    assert ms[input.userId].seqNo == n && ms[input.assistantId].seqNo == n + 1;
    forall id | id in s.messages ensures ms[id] == s.messages[id] && ms[id].seqNo < n {
      assert WellPlaced(s, id);
    }
    forall k | 1 <= k < n + 2 ensures NumberTaken(ms, k) {
      if k < n {
        assert NumberTaken(s.messages, k);
        var id :| id in s.messages && s.messages[id].seqNo == k;
        assert ms[id].seqNo == k;
      }
    }
  }

  lemma InsertKeepsClientIds(s: State)
    requires Inv(s) && Enabled(s, Insert)
    ensures UniqueClientIds(Next(s, Insert).messages)
  {}

  lemma InsertPlacesAll(s: State)
    requires Inv(s) && Enabled(s, Insert)
    ensures AllPlaced(Next(s, Insert))
  {
    forall id | id in Next(s, Insert).messages ensures WellPlaced(Next(s, Insert), id) {
      InsertKeepsPlacement(s, id);
    }
  }

  lemma InsertEndsTheSend(s: State)
    requires Enabled(s, Insert)
    ensures Next(s, Insert).conv.nextSeqNo == s.conv.nextSeqNo + 2 && Next(s, Insert).pending.Idle?
  {}

  lemma InsertKeepsTranscript(s: State)
    requires Inv(s) && Enabled(s, Insert)
    ensures Inv(Next(s, Insert))
  {
    InsertKeepsNumbers(s);
    InsertKeepsClientIds(s);
    InsertPlacesAll(s);
    InsertEndsTheSend(s);
  }

  /** An update moves no message and puts none back in flight. */
  lemma ChangeKeepsPlaces(ms: Messages, u: Update)
    ensures Change(ms, u).Keys == ms.Keys
    ensures forall id :: id in ms ==> KeepsPlace(ms[id], Change(ms, u)[id])
    ensures forall id :: id in ms && AssistantInFlight(Change(ms, u)[id]) ==> AssistantInFlight(ms[id])
  {}

  lemma ChangeKeepsPlacement(s: State, u: Update, id: string)
    requires Transcript(s) && id in s.messages
    ensures id in Next(s, ChangeMessage(u)).messages && WellPlaced(Next(s, ChangeMessage(u)), id)
  {
    assert WellPlaced(s, id);
    ChangeKeepsPlaces(s.messages, u);
  }

  lemma ChangeKeepsNumbers(s: State, u: Update)
    requires Transcript(s)
    ensures var ms := Change(s.messages, u);
            && DistinctNumbers(ms) && UniqueClientIds(ms)
            && forall n :: 1 <= n < s.conv.nextSeqNo ==> NumberTaken(ms, n)
  {
    var ms := Change(s.messages, u);
    ChangeKeepsPlaces(s.messages, u);
    forall n | 1 <= n < s.conv.nextSeqNo ensures NumberTaken(ms, n) {
      assert NumberTaken(s.messages, n);
      var id :| id in s.messages && s.messages[id].seqNo == n;
      assert ms[id].seqNo == n;
    }
  }

  lemma ChangeKeepsInv(s: State, u: Update)
    requires Inv(s)
    ensures Inv(Next(s, ChangeMessage(u)))
  {
    ChangeKeepsNumbers(s, u);
    ChangeKeepsPlaces(s.messages, u);
    forall id | id in s.messages ensures WellPlaced(Next(s, ChangeMessage(u)), id) {
      ChangeKeepsPlacement(s, u, id);
    }
  }

  lemma StepKeepsInv(s: State, step: Step)
    requires Inv(s) && Enabled(s, step)
    ensures Inv(Next(s, step))
  {
    if step.Insert? {
      InsertKeepsTranscript(s);
    } else if step.ChangeMessage? {
      ChangeKeepsInv(s, step.u);
    } else {
      forall id | id in s.messages ensures WellPlaced(Next(s, step), id) {
        assert WellPlaced(s, id);
      }
    }
  }

  lemma {:induction false} RunKeepsInv(s: State, steps: seq<Step>, t: State)
    requires Inv(s) && Runs(s, steps, t)
    ensures Inv(t)
    decreases |steps|
  {
    if steps != [] {
      StepKeepsInv(s, steps[0]);
      RunKeepsInv(Next(s, steps[0]), steps[1..], t);
    }
  }

  /** A reply that has not ended yet. */
  predicate Unfinished(m: Message) { m.role == Assistant && m.status !in {Completed, Failed, Cancelled} }

  /** Over every interleaving, the messages carry exactly the numbers 1 to `nextSeqNo - 1`, odd ones
    from the user and even ones the assistant's reply to the message before, and only the last
    message can be in flight. */
  lemma TranscriptAlwaysHolds(owner: string, title: string, steps: seq<Step>, t: State)
    requires Runs(Start(owner, title), steps, t)
    ensures Transcript(t) && UniqueReplies(t.messages)
    ensures forall i, j | i in t.messages && j in t.messages ::
              Unfinished(t.messages[i]) && Unfinished(t.messages[j]) ==> i == j
  {
    RunKeepsInv(Start(owner, title), steps, t);
    TranscriptHasUniqueReplies(t);
    forall i, j | i in t.messages && j in t.messages && Unfinished(t.messages[i]) && Unfinished(t.messages[j])
      ensures i == j
    {
      assert WellPlaced(t, i) && WellPlaced(t, j);
    }
  }

  /** The insert never runs into the unique indexes on sequence number, client id or in-flight turn:
    a taken message id is the only thing that can stop it. */
  lemma InsertMeetsEveryIndex(s: State)
    requires Inv(s) && s.pending.NoneInFlight?
    ensures !NumberTaken(s.messages, s.conv.nextSeqNo) && !NumberTaken(s.messages, s.conv.nextSeqNo + 1)
    ensures !HasClientId(s.messages, s.pending.input.clientId) && !HasInFlight(s.messages)
  {
    forall id | id in s.messages ensures s.messages[id].seqNo < s.conv.nextSeqNo {
      assert WellPlaced(s, id);
    }
  }

  // ---- What a message keeps ----

  /** Messages are never removed; a user message changes in its agent run at most, an assistant's place
    never does. */
  ghost predicate Keeps(a: Messages, b: Messages) {
    forall id :: id in a ==> id in b && KeepsPlace(a[id], b[id])
  }

  ghost predicate KeepsPlace(m: Message, n: Message) {
    && m.seqNo == n.seqNo && m.role == n.role && m.clientId == n.clientId && m.replyTo == n.replyTo
    && (m.role == User && m.replyTo == None ==> n == m.(links := m.links.(agent := n.links.agent)))
    && (m.role == Assistant && !InFlight(m.status) ==> !InFlight(n.status))
  }

  lemma {:induction false} RunKeepsMessages(s: State, steps: seq<Step>, t: State)
    requires Runs(s, steps, t)
    ensures Keeps(s.messages, t.messages)
    decreases |steps|
  {
    if steps != [] {
      var n := Next(s, steps[0]);
      RunKeepsMessages(n, steps[1..], t);
      forall id | id in s.messages ensures id in t.messages && KeepsPlace(s.messages[id], t.messages[id]) {
        assert id in n.messages && KeepsPlace(s.messages[id], n.messages[id]);
      }
    }
  }

  // ---- A whole send with nothing in between ----

  function Send(s: State, input: SendInput): (State, SendResult)
    requires UniqueClientIds(s.messages) && UniqueReplies(s.messages)
  {
    if input.owner != s.conv.owner then (s, Thrown("CONVERSATION_NOT_FOUND"))
    else if !s.conv.active then (s, Thrown("CONVERSATION_ARCHIVED"))
    else if HasClientId(s.messages, input.clientId) then (s, Replay(s.messages, input))
    else if HasInFlight(s.messages) then (s, Thrown("CONVERSATION_TURN_IN_PROGRESS"))
    else if !IdsFree(s.messages, input) then (s, Thrown("DUPLICATE_MESSAGE_ID"))
    else (s.(conv := Allocated(s.conv), messages := Inserted(s.messages, input, s.conv.nextSeqNo)),
          Turn(input.userId, input.assistantId, false))
  }

  /** The steps of a send that nothing interrupts. */
  function SendSteps(s: State, input: SendInput): seq<Step> {
    if HasClientId(s.messages, input.clientId) then [Begin(input), LookUpClientId]
    else if HasInFlight(s.messages) then [Begin(input), LookUpClientId, LookUpInFlight]
    else [Begin(input), LookUpClientId, LookUpInFlight, if IdsFree(s.messages, input) then Insert else Abort]
  }

  /** A send by the owner of an active conversation is the machine run straight through, whether it
    inserts, replays or is refused, and it leaves no lock. */
  lemma SendIsTheStepsInARow(s: State, input: SendInput)
    requires Inv(s) && s.pending.Idle? && UniqueReplies(s.messages)
    requires input.owner == s.conv.owner && s.conv.active
    ensures Runs(s, SendSteps(s, input), Send(s, input).0) && Send(s, input).0.pending.Idle?
  {
    var steps, t := SendSteps(s, input), Send(s, input).0;
    var s1 := Next(s, Begin(input));
    var s2 := Next(s1, LookUpClientId);
    if HasClientId(s.messages, input.clientId) {
      RunsCons(s2, [], t);
    } else {
      var s3 := Next(s2, LookUpInFlight);
      if HasInFlight(s.messages) {
        RunsCons(s3, [], t);
      } else {
        RunsCons(t, [], t);
        RunsCons(s3, steps[3..], t);
      }
      RunsCons(s2, steps[2..], t);
    }
    RunsCons(s1, steps[1..], t);
    RunsCons(s, steps, t);
  }

  lemma RunsCons(s: State, steps: seq<Step>, t: State)
    requires if steps == [] then s == t else Enabled(s, steps[0]) && Runs(Next(s, steps[0]), steps[1..], t)
    ensures Runs(s, steps, t)
  {}

  /** While a send holds the lock, the conversation row changes by that send alone. The send may be given
    up at any point, which frees the lock and changes nothing. */
  lemma LockKeepsTheRow(s: State, step: Step)
    requires Enabled(s, step) && !s.pending.Idle? && !step.Insert?
    ensures Next(s, step).conv == s.conv
    ensures Enabled(s, Abort) && Next(s, Abort) == State(s.conv, s.messages, Idle)
  {}

  lemma NothingToAbort(s: State)
    requires s.pending.Idle?
    ensures !Enabled(s, Abort)
  {}

  lemma HasInFlightMeaning(ms: Messages)
    ensures HasInFlight(ms) <==> exists id :: id in ms && Unfinished(ms[id])
  {
    forall id | id in ms ensures AssistantInFlight(ms[id]) <==> Unfinished(ms[id]) {}
  }

  /** What a first send inserts, when nothing stands in its way: the user's text, completed, and an empty
    reply to it, queued; and it is refused for a turn in progress exactly when some reply has not ended. */
  lemma FirstSendInserts(s: State, input: SendInput)
    requires Inv(s) && UniqueReplies(s.messages) && input.owner == s.conv.owner && s.conv.active
    requires forall id :: id in s.messages && s.messages[id].role == User ==> s.messages[id].clientId != Some(input.clientId)
    ensures Send(s, input).1 == Thrown("CONVERSATION_TURN_IN_PROGRESS")
            <==> exists id :: id in s.messages && Unfinished(s.messages[id])
    ensures Send(s, input).1 == Thrown("DUPLICATE_MESSAGE_ID")
            <==> && (forall id :: id in s.messages ==> !Unfinished(s.messages[id]))
                 && (input.userId in s.messages || input.assistantId in s.messages || input.userId == input.assistantId)
    ensures Send(s, input).1.Thrown? ==>
              Send(s, input).0 == s && Send(s, input).1.code in {"CONVERSATION_TURN_IN_PROGRESS", "DUPLICATE_MESSAGE_ID"}
    ensures var (t, r) := Send(s, input); var n := s.conv.nextSeqNo;
            !r.Thrown? ==>
              && r == Turn(input.userId, input.assistantId, false) && input.userId != input.assistantId
              && t.messages.Keys == s.messages.Keys + {input.userId, input.assistantId}
              && input.userId !in s.messages && input.assistantId !in s.messages
              && t.messages[input.userId]
                 == Message(n, User, Completed, Some(input.content), Some(input.clientId), None, Links(None, None))
              && t.messages[input.assistantId]
                 == Message(n + 1, Assistant, Queued, None, None, Some(input.userId), Links(None, None))
              && (forall id :: id in s.messages ==> t.messages[id] == s.messages[id])
              && t.conv == s.conv.(nextSeqNo := n + 2, revision := s.conv.revision + 1)
  {
    HasInFlightMeaning(s.messages);
  }

  /** Whatever has happened since, resending the same text under the same client id to an active
    conversation returns the original pair and changes nothing; other text is refused. */
  lemma ResendReturnsTheOriginal(s: State, first: SendInput, steps: seq<Step>, t: State, again: SendInput)
    requires Inv(s) && s.pending.Idle? && UniqueReplies(s.messages)
    requires Send(s, first).1 == Turn(first.userId, first.assistantId, false)
    requires Runs(Send(s, first).0, steps, t)
    requires again.clientId == first.clientId && again.owner == t.conv.owner && t.conv.active
    ensures UniqueClientIds(t.messages) && UniqueReplies(t.messages)
    ensures Send(t, again) == (t, if again.content == first.content
                                  then Turn(first.userId, first.assistantId, true)
                                  else Thrown("CONVERSATION_MESSAGE_IDEMPOTENCY_CONFLICT"))
  {
    var sent := Send(s, first).0;
    SendKeepsInv(s, first);
    RunKeepsInv(sent, steps, t);
    TranscriptHasUniqueReplies(t);
    RunKeepsMessages(sent, steps, t);
    assert KeepsPlace(sent.messages[first.userId], t.messages[first.userId]);
    assert KeepsPlace(sent.messages[first.assistantId], t.messages[first.assistantId]);
    assert HasClientId(t.messages, first.clientId);
    assert ByClientId(t.messages, first.clientId) == first.userId;
    assert HasReply(t.messages, first.userId);
    assert ReplyOf(t.messages, first.userId) == first.assistantId;
  }

  lemma SendKeepsInv(s: State, input: SendInput)
    requires Inv(s) && s.pending.Idle? && UniqueReplies(s.messages)
    ensures Inv(Send(s, input).0)
  {
    if Send(s, input).1.Turn? && !Send(s, input).1.replay {
      var ready := s.(pending := NoneInFlight(input));
      forall id | id in s.messages ensures WellPlaced(ready, id) {
        assert WellPlaced(s, id);
      }
      InsertKeepsTranscript(ready);
    }
  }

  // ---- What one update does ----

  /** A given run id replaces the one before, and an absent or empty one leaves it. */
  predicate LinkedTo(now: Option<string>, given: Option<string>, before: Option<string>) {
    if given in {None, Some("")} then now == before else now == given
  }

  /** An update touches at most one message, and of that its status, content and links alone. */
  lemma UpdateTouchesOneMessage(ms: Messages, u: Update)
    ensures Change(ms, u).Keys == ms.Keys
    ensures forall id :: id in ms && id != u.id ==> Change(ms, u)[id] == ms[id]
    ensures u.id in ms ==>
              var n := Change(ms, u)[u.id];
              n == ms[u.id].(status := n.status, content := n.content, links := n.links)
  {}

  /** Completing, failing or cancelling a reply, whatever its status: only completing stores a content,
    and every one of them keeps a link that is not given anew. Other messages are left alone. */
  lemma ReplyEnds(ms: Messages, u: Update)
    requires u.id in ms && !u.LinkTask? && !u.LinkAgent?
    ensures var m, n := ms[u.id], Change(ms, u)[u.id];
            if m.role == User then n == m
            else
              && n.status == (if u.Complete? then Completed else if u.Fail? then Failed else Cancelled)
              && n.content == (if u.Complete? then Some(u.text) else m.content)
              && LinkedTo(n.links.task, u.links.task, m.links.task) && LinkedTo(n.links.agent, u.links.agent, m.links.agent)
  {}

  /** Linking a message to a run stores that run and nothing else; a task run is linked only to the reply
    to the message it was started for. */
  lemma LinksAreStored(ms: Messages, id: string, userId: string, run: string)
    requires id in ms
    ensures Change(ms, LinkAgent(id, run))[id] == ms[id].(links := Links(ms[id].links.task, Some(run)))
    ensures Change(ms, LinkTask(id, userId, run))[id]
            == if ms[id].replyTo == Some(userId) then ms[id].(links := Links(Some(run), ms[id].links.agent)) else ms[id]
  {}

  /** A reply that failed or was cancelled is in no context window. */
  lemma EndedReplyLeavesTheWindow(s: State, u: Update)
    requires Inv(s) && (u.Fail? || u.Cancel?) && u.id in s.messages && s.messages[u.id].role == Assistant
    ensures var t := Next(s, ChangeMessage(u));
            Inv(t) && u.id !in CompletedUpTo(t, t.conv.nextSeqNo - 1)
  {
    ChangeKeepsInv(s, u);
    ReplyEnds(s.messages, u);
    CompletedMessagesInOrder(Next(s, ChangeMessage(u)));
  }

  lemma OthersHaveEnded(s: State, id: string, other: string)
    requires Inv(s) && id in s.messages && Unfinished(s.messages[id]) && other in s.messages && other != id
    ensures !Unfinished(s.messages[other])
  {
    assert WellPlaced(s, id) && WellPlaced(s, other);
  }

  /** A send that was refused for a turn in progress goes through once that reply has ended. */
  lemma EndedReplyFreesTheTurn(s: State, u: Update, input: SendInput)
    requires Inv(s) && UniqueReplies(s.messages) && s.pending.Idle? && !u.LinkTask? && !u.LinkAgent?
    requires u.id in s.messages && Unfinished(s.messages[u.id])
    requires Send(s, input).1 == Thrown("CONVERSATION_TURN_IN_PROGRESS")
    requires input.userId !in s.messages && input.assistantId !in s.messages && input.userId != input.assistantId
    ensures var t := Next(s, ChangeMessage(u));
            Inv(t) && UniqueReplies(t.messages) && Send(t, input).1 == Turn(input.userId, input.assistantId, false)
  {
    var t := Next(s, ChangeMessage(u));
    ChangeKeepsInv(s, u);
    TranscriptHasUniqueReplies(t);
    ReplyEnds(s.messages, u);
    UpdateTouchesOneMessage(s.messages, u);
    forall id | id in t.messages ensures !Unfinished(t.messages[id]) {
      if id != u.id { OthersHaveEnded(s, u.id, id); }
    }
    HasInFlightMeaning(t.messages);
    assert HasClientId(t.messages, input.clientId) ==> HasClientId(s.messages, input.clientId);
  }

  // ---- Finalisation ----

  datatype FinalResult = Done | NotFound | Conflict

  /** The given runs are those the message is linked to. */
  predicate LinksAgree(m: Message, links: Links) {
    (Given(links.task) ==> m.links.task == links.task) && (Given(links.agent) ==> m.links.agent == links.agent)
  }

  /** What `completeAssistant` answers. */
  function CompleteOutcome(ms: Messages, id: string, text: string, links: Links): FinalResult {
    if id in ms && ms[id].role == Assistant then Done
    else if id !in ms then NotFound
    else if ms[id].status == Completed && ms[id].content == Some(text) && LinksAgree(ms[id], links) then Done
    else Conflict
  }

  lemma GivenMeaning(run: Option<string>)
    ensures Given(run) <==> run !in {None, Some("")}
  {
    if run.Some? { assert run == Some(run.value); }
  }

  /** The conflict "already finalized with different content" is only ever reported for a user message:
    for other text, for any task run, or for another agent run. An assistant reply that is already
    final is silently finalised again. */
  lemma ConflictOnlyForUserMessages(s: State, id: string, text: string, links: Links)
    requires Inv(s)
    ensures CompleteOutcome(s.messages, id, text, links) == Conflict
            <==> && id in s.messages && s.messages[id].role == User
                 && (|| s.messages[id].content != Some(text) || links.task !in {None, Some("")}
                     || links.agent !in {None, Some(""), s.messages[id].links.agent})
    ensures CompleteOutcome(s.messages, id, text, links) == NotFound <==> id !in s.messages
    ensures id in s.messages && s.messages[id].role == Assistant ==>
              var again := Change(s.messages, Complete(id, text, links))[id];
              again == s.messages[id].(status := Completed, content := Some(text), links := again.links)
              && LinksAgree(again, links)
  {
    GivenMeaning(links.task);
    GivenMeaning(links.agent);
    if id in s.messages { assert WellPlaced(s, id); }
  }

  // ---- The context window ----

  function MessageAt(s: State, n: nat): (id: string)
    requires Transcript(s) && 1 <= n < s.conv.nextSeqNo
    ensures id in s.messages && s.messages[id].seqNo == n
  {
    assert NumberTaken(s.messages, n);
    var id :| id in s.messages && s.messages[id].seqNo == n;
    id
  }

  /** The completed messages numbered up to `n`, in ascending order. */
  function CompletedUpTo(s: State, n: nat): seq<string>
    requires Transcript(s) && n < s.conv.nextSeqNo
  {
    if n == 0 then []
    else CompletedUpTo(s, n - 1) + if s.messages[MessageAt(s, n)].status == Completed then [MessageAt(s, n)] else []
  }

  lemma {:induction false} CompletedUpToMembers(s: State, n: nat, id: string)
    requires Transcript(s) && n < s.conv.nextSeqNo
    ensures id in CompletedUpTo(s, n)
            <==> id in s.messages && s.messages[id].seqNo <= n && s.messages[id].status == Completed
  {
    if n == 0 {
      if id in s.messages { assert WellPlaced(s, id); }
    } else {
      CompletedUpToMembers(s, n - 1, id);
      if id in s.messages && s.messages[id].seqNo == n {
        assert MessageAt(s, n) == id;
      }
    }
  }

  ghost predicate Ascending(ms: Messages, ids: seq<string>) {
    && (forall id :: id in ids ==> id in ms)
    && (forall i, j :: 0 <= i < j < |ids| ==> ms[ids[i]].seqNo < ms[ids[j]].seqNo)
  }

  lemma {:induction false} CompletedUpToAscends(s: State, n: nat)
    requires Transcript(s) && n < s.conv.nextSeqNo
    ensures Ascending(s.messages, CompletedUpTo(s, n))
    ensures forall id :: id in CompletedUpTo(s, n) ==> s.messages[id].seqNo <= n
  {
    if n > 0 {
      CompletedUpToAscends(s, n - 1);
    }
  }

  /** The candidates of a context window: every completed message, each once, in sequence order. */
  lemma CompletedMessagesInOrder(s: State)
    requires Transcript(s)
    ensures var all := CompletedUpTo(s, s.conv.nextSeqNo - 1);
            && Ascending(s.messages, all)
            && forall id :: id in all <==> id in s.messages && s.messages[id].status == Completed
  {
    var n := s.conv.nextSeqNo - 1;
    CompletedUpToAscends(s, n);
    forall id ensures id in CompletedUpTo(s, n) <==> id in s.messages && s.messages[id].status == Completed {
      CompletedUpToMembers(s, n, id);
      if id in s.messages { assert WellPlaced(s, id); }
    }
  }

  function Total(size: string -> nat, ids: seq<string>): nat {
    if ids == [] then 0 else size(ids[0]) + Total(size, ids[1..])
  }

  lemma {:induction false} LongerCostsMore(size: string -> nat, ids: seq<string>, k: nat)
    requires k <= |ids|
    ensures Total(size, ids[k..]) <= Total(size, ids)
  {
    if k > 0 {
      assert ids[k..] == ids[1..][k - 1..];
      LongerCostsMore(size, ids[1..], k - 1);
    }
  }

  ghost predicate Fits(size: string -> nat, ids: seq<string>, maxMessages: nat, maxBytes: nat) {
    |ids| <= maxMessages && Total(size, ids) <= maxBytes
  }

  /** The loop walks the rows newest first and stops at the first one that does not fit; `all` is
    the same rows in ascending order. What is left is the longest suffix within both limits. */
  method SelectContext(size: string -> nat, all: seq<string>, maxMessages: nat, maxBytes: nat) returns (selected: seq<string>)
    ensures |selected| <= |all| && selected == all[|all| - |selected|..]
    ensures Fits(size, selected, maxMessages, maxBytes)
    ensures forall k :: 0 <= k < |all| - |selected| ==> !Fits(size, all[k..], maxMessages, maxBytes)
  {
    selected := [];
    var totalBytes := 0;
    var i := |all|;
    while i > 0
      invariant 0 <= i <= |all|
      invariant selected == all[i..] && totalBytes == Total(size, selected)
      invariant Fits(size, selected, maxMessages, maxBytes)
    {
      var row := all[i - 1];
      if |selected| >= maxMessages || totalBytes + size(row) > maxBytes {
        break;
      }
      assert all[i - 1..] == [row] + all[i..];
      selected := [row] + selected;
      totalBytes := totalBytes + size(row);
      i := i - 1;
    }
    if i > 0 {
      assert all[i - 1..] == [all[i - 1]] + all[i..];
      forall k | 0 <= k < i ensures !Fits(size, all[k..], maxMessages, maxBytes) {
        assert all[i - 1..] == all[k..][i - 1 - k..];
        LongerCostsMore(size, all[k..], i - 1 - k);
      }
    }
  }

  // ---- The tables, updated in place ----

  class ConversationTables {
    var conv: Conv
    var messages: Messages

    function Now(): State
      reads this
    {
      State(conv, messages, Idle)
    }

    ghost predicate Valid()
      reads this
    {
      Inv(Now()) && UniqueReplies(messages)
    }

    constructor (owner: string, title: string)
      ensures Valid() && Now() == Start(owner, title)
    {
      conv := Conv(owner, true, title, 1, 1);
      messages := map[];
    }

    method AllocateSequenceRange(count: nat) returns (start: nat)
      modifies this`conv
      ensures start == old(conv).nextSeqNo
      ensures conv == old(conv).(nextSeqNo := start + count, revision := old(conv).revision + 1)
    {
      start := conv.nextSeqNo;
      conv := conv.(nextSeqNo := start + count, revision := conv.revision + 1);
    }

    method InsertTurn(input: SendInput)
      requires IdsFree(messages, input)
      modifies this
      ensures conv == Allocated(old(conv)) && messages == Inserted(old(messages), input, old(conv).nextSeqNo)
    {
      var start := AllocateSequenceRange(2);
      messages := messages[input.userId := UserMessage(input, start)];
      messages := messages[input.assistantId := AssistantMessage(input, start + 1)];
    }

    method CreateUserAndAssistantTurn(input: SendInput) returns (r: SendResult)
      requires Valid()
      modifies this
      ensures Valid() && (Now(), r) == Send(old(Now()), input)
    {
      if input.owner != conv.owner { return Thrown("CONVERSATION_NOT_FOUND"); }
      if !conv.active { return Thrown("CONVERSATION_ARCHIVED"); }
      if HasClientId(messages, input.clientId) {
        return Replay(messages, input);
      }
      if HasInFlight(messages) { return Thrown("CONVERSATION_TURN_IN_PROGRESS"); }
      if !IdsFree(messages, input) { return Thrown("DUPLICATE_MESSAGE_ID"); }
      SendKeepsInv(Now(), input);
      TranscriptHasUniqueReplies(Send(Now(), input).0);
      InsertTurn(input);
      r := Turn(input.userId, input.assistantId, false);
    }

    method UpdateMessage(u: Update)
      requires Valid()
      modifies this`messages
      ensures Valid() && messages == Change(old(messages), u)
    {
      ChangeKeepsInv(Now(), u);
      TranscriptHasUniqueReplies(Next(Now(), ChangeMessage(u)));
      if Selects(messages, u) {
        messages := messages[u.id := Updated(messages[u.id], u)];
      }
    }

    method SetStatus(owner: string, active: bool) returns (r: Result<()>)
      requires Valid()
      modifies this`conv
      ensures Valid() && Now() == Next(old(Now()), SetActive(owner, active))
      ensures r == if owner == old(conv).owner then Ok(()) else Err("CONVERSATION_NOT_FOUND")
    {
      StepKeepsInv(Now(), SetActive(owner, active));
      if owner != conv.owner { return Err("CONVERSATION_NOT_FOUND"); }
      conv := conv.(active := active, revision := conv.revision + 1);
      r := Ok(());
    }

    method UpdateTitle(owner: string, title: string, ifRevision: Option<nat>) returns (r: Result<()>)
      requires Valid()
      modifies this`conv
      ensures Valid() && Now() == Next(old(Now()), Rename(owner, title, ifRevision))
      ensures r == if owner != old(conv).owner then Err("CONVERSATION_NOT_FOUND")
                   else if ifRevision.Some? && ifRevision.value != old(conv).revision then Err("CONVERSATION_REVISION_CONFLICT")
                   else Ok(())
    {
      StepKeepsInv(Now(), Rename(owner, title, ifRevision));
      if owner != conv.owner { return Err("CONVERSATION_NOT_FOUND"); }
      if ifRevision.Some? && ifRevision.value != conv.revision { return Err("CONVERSATION_REVISION_CONFLICT"); }
      conv := conv.(title := title, revision := conv.revision + 1);
      r := Ok(());
    }

    method ListCompletedContextMessages(size: string -> nat, maxMessages: nat, maxBytes: nat) returns (selected: seq<string>)
      requires Valid()
      ensures var all := CompletedUpTo(Now(), conv.nextSeqNo - 1);
              && |selected| <= |all| && selected == all[|all| - |selected|..]
              && Fits(size, selected, maxMessages, maxBytes)
              && forall k :: 0 <= k < |all| - |selected| ==> !Fits(size, all[k..], maxMessages, maxBytes)
    {
      var all := CompletedUpTo(Now(), conv.nextSeqNo - 1);
      selected := SelectContext(size, all, maxMessages, maxBytes);
    }
  }
}
