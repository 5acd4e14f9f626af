/** The signed Redis queues (`app/workers/commands.py`, `app/scheduler/queue.py`) and the loops
    that drain them (`_process_commands` and `_process_tasks` of `app/workers/manager.py`).

    Signing and the text that is signed are parameters; verifying is comparing with the
    signature the signer computes, as `CommandSigner.verify` does. */
module SignedQueues {
  import opened Common
  import opened Commands

  /** A queue entry as it is read back: not JSON, or an object with or without a signature. */
  datatype Entry<B> = Garbage | Message(body: B, signature: Option<string>)

  /** What a queue signs, how it signs, and which bodies are still current at a given time. */
  datatype Policy<!B> = Policy(canonical: B -> string, sign: string -> string, current: (B, int) -> bool)

  function Signature<B>(policy: Policy<B>, body: B): string {
    (policy.sign)((policy.canonical)(body))
  }

  /** The checks of `pop`, in its order: well formed, signed, signed by us, not expired. */
  function Judge<B>(policy: Policy<B>, entry: Entry<B>, now: int): Option<B> {
    match entry
    case Garbage => None
    case Message(body, None) => None
    case Message(body, Some(signature)) =>
      if signature == "" then None
      else if signature != Signature(policy, body) then None
      else if !(policy.current)(body, now) then None
      else Some(body)
  }

  /** Exactly which entries `pop` hands on: those with a non-empty signature that is ours, still current. */
  lemma AcceptedIff<B>(policy: Policy<B>, entry: Entry<B>, now: int, body: B)
    ensures Judge(policy, entry, now) == Some(body) <==>
              && entry.Message? && entry.body == body
              && entry.signature == Some((policy.sign)((policy.canonical)(body))) && entry.signature != Some("")
              && (policy.current)(body, now)
  {
  }

  class SignedQueue<B> {
    const policy: Policy<B>
    /** The reading of the clock when the n-th entry ever popped is judged. */
    const clock: nat -> int
    var entries: seq<Entry<B>>
    var popped: nat

    constructor (policy: Policy<B>, clock: nat -> int)
      ensures this.policy == policy && this.clock == clock && entries == [] && popped == 0
    {
      this.policy, this.clock, entries, popped := policy, clock, [], 0;
    }

    /** The verdicts on the waiting entries, each at the time it will be popped. */
    ghost function Verdicts(): (v: seq<Option<B>>)
      reads this
      ensures |v| == |entries|
    {
      JudgeAll(policy, clock, entries, popped)
    }

    /** `send` and `enqueue`: sign the body and append it. */
    method Push(body: B)
      modifies this
      ensures entries == old(entries) + [Message(body, Some(Signature(policy, body)))]
      ensures popped == old(popped)
    {
      var signature := (policy.sign)((policy.canonical)(body));
      entries := entries + [Message(body, Some(signature))];
    }

    /** None both for an empty queue and for an entry that is thrown away. */
    method Pop() returns (body: Option<B>)
      modifies this
      ensures old(entries) == [] ==> body == None && entries == [] && popped == old(popped)
      ensures old(entries) != [] ==>
                && body == Judge(policy, old(entries)[0], clock(old(popped)))
                && entries == old(entries)[1..] && popped == old(popped) + 1
      ensures if old(Verdicts()) == [] then body == None && Verdicts() == []
              else body == old(Verdicts())[0] && Verdicts() == old(Verdicts())[1..]
    {
      if entries == [] {
        return None;
      }
      var entry := entries[0];
      var now := clock(popped);
      entries, popped := entries[1..], popped + 1;
      match entry {
        case Garbage => return None;
        case Message(content, signature) =>
          if signature.None? || signature.value == "" {
            return None;
          }
          if signature.value != Signature(policy, content) {
            return None;
          }
          if !(policy.current)(content, now) {
            return None;
          }
          return Some(content);
      }
    }

    /** One call of the drain loop: handle bodies until `pop` returns None. */
    method Drain() returns (handled: seq<B>)
      modifies this
      ensures handled == Leading(old(Verdicts()))
      ensures Verdicts() == Remaining(old(Verdicts()))
      ensures |entries| <= |old(entries)| && entries == old(entries)[|old(entries)| - |entries|..]
      ensures popped == old(popped) + |old(entries)| - |entries|
    {
      handled := [];
      while true
        invariant handled + Leading(Verdicts()) == Leading(old(Verdicts()))
        invariant Remaining(Verdicts()) == Remaining(old(Verdicts()))
        invariant |entries| <= |old(entries)| && entries == old(entries)[|old(entries)| - |entries|..]
        invariant popped == old(popped) + |old(entries)| - |entries|
        decreases |entries|
      {
        ghost var waiting, before := Verdicts(), entries;
        var body := Pop();
        if before != [] {
          assert before[1..] == old(entries)[|old(entries)| - |entries|..];
        }
        if body.None? {
          break;
        }
        FirstHandled(waiting, handled);
        handled := handled + [body.value];
      }
    }
  }

  lemma FirstHandled<B>(verdicts: seq<Option<B>>, handled: seq<B>)
    requires verdicts != [] && verdicts[0].Some?
    ensures handled + Leading(verdicts) == handled + [verdicts[0].value] + Leading(verdicts[1..])
    ensures Remaining(verdicts) == Remaining(verdicts[1..])
  {
  }

  ghost function JudgeAll<B>(policy: Policy<B>, clock: nat -> int, entries: seq<Entry<B>>,
                             popped: nat): (v: seq<Option<B>>)
    ensures |v| == |entries|
  {
    if entries == [] then [] else
    [Judge(policy, entries[0], clock(popped))] + JudgeAll(policy, clock, entries[1..], popped + 1)
  }

  // ----- The drain loop on verdicts -----

  /** What one call handles: the accepted bodies before the first rejected entry. */
  ghost function Leading<B>(verdicts: seq<Option<B>>): seq<B> {
    if verdicts == [] || verdicts[0].None? then [] else [verdicts[0].value] + Leading(verdicts[1..])
  }

  /** What one call leaves: everything behind the first rejected entry. */
  ghost function Remaining<B>(verdicts: seq<Option<B>>): (rest: seq<Option<B>>)
    ensures |rest| <= |verdicts| && (verdicts != [] ==> |rest| < |verdicts|)
  {
    if verdicts == [] then [] else if verdicts[0].None? then verdicts[1..] else Remaining(verdicts[1..])
  }

  /** The accepted bodies, in order. */
  ghost function Values<B>(verdicts: seq<Option<B>>): seq<B> {
    if verdicts == [] then [] else
    (if verdicts[0].Some? then [verdicts[0].value] else []) + Values(verdicts[1..])
  }

  ghost function Rejected<B>(verdicts: seq<Option<B>>): nat {
    if verdicts == [] then 0 else
    (if verdicts[0].None? then 1 else 0) + Rejected(verdicts[1..])
  }

  /** A call consumes the longest accepted prefix and, if there is one, the rejected entry that
      ends it; `n` is the length of that prefix. */
  lemma {:induction false} OneCall<B>(verdicts: seq<Option<B>>) returns (n: nat)
    ensures n == |Leading(verdicts)| <= |verdicts|
    ensures forall i | 0 <= i < n :: verdicts[i] == Some(Leading(verdicts)[i])
    ensures n < |verdicts| ==> verdicts[n].None? && Remaining(verdicts) == verdicts[n + 1..]
    ensures n == |verdicts| ==> Remaining(verdicts) == []
  {
    if verdicts == [] || verdicts[0].None? {
      n := 0;
    } else {
      n := OneCall(verdicts[1..]);
      n := n + 1;
    }
  }

  /** How many calls of the drain loop it takes to empty a queue that nobody pushes to. */
  ghost function CallsToEmpty<B>(verdicts: seq<Option<B>>): nat
    decreases |verdicts|
  {
    if verdicts == [] then 0 else 1 + CallsToEmpty(Remaining(verdicts))
  }

  /** What a number of calls handle, one after the other. */
  ghost function HandledByCalls<B>(verdicts: seq<Option<B>>, calls: nat): seq<B>
    decreases calls
  {
    if calls == 0 then [] else Leading(verdicts) + HandledByCalls(Remaining(verdicts), calls - 1)
  }

  /** Main result: emptying a queue with k rejected entries takes k calls when the last entry is
      rejected and k + 1 otherwise, never more; and together they handle every accepted entry
      exactly once, in the order in which it was pushed, and nothing else. */
  lemma {:induction false} DrainIsComplete<B>(verdicts: seq<Option<B>>)
    ensures CallsToEmpty(verdicts) == Rejected(verdicts) + (if verdicts != [] && Last(verdicts).Some? then 1 else 0)
    ensures HandledByCalls(verdicts, CallsToEmpty(verdicts)) == Values(verdicts)
    decreases |verdicts|
  {
    if verdicts == [] {
    } else if |verdicts| == 1 {
      OnlyEntry(verdicts);
    } else {
      var rest := verdicts[1..];
      DrainIsComplete(rest);
      assert Last(rest) == Last(verdicts);
      if verdicts[0].None? {
        FirstRejected(verdicts, CallsToEmpty(rest));
      } else {
        FirstAccepted(verdicts, CallsToEmpty(rest));
      }
    }
  }

  lemma OnlyEntry<B>(verdicts: seq<Option<B>>)
    requires |verdicts| == 1
    ensures CallsToEmpty(verdicts) == 1 && HandledByCalls(verdicts, 1) == Values(verdicts)
  {
    var none: seq<Option<B>> := verdicts[1..];
    assert none == [] && Leading(none) == [] && Values(none) == [];
    assert Remaining(verdicts) == none && CallsToEmpty(none) == 0;
    assert HandledByCalls(none, 0) == [];
  }

  /** A rejected first entry is a call of its own. */
  lemma FirstRejected<B>(verdicts: seq<Option<B>>, calls: nat)
    requires verdicts != [] && verdicts[0].None?
    ensures CallsToEmpty(verdicts) == 1 + CallsToEmpty(verdicts[1..])
    ensures HandledByCalls(verdicts, 1 + calls) == HandledByCalls(verdicts[1..], calls)
  {
    assert Leading(verdicts) + HandledByCalls(verdicts[1..], calls) == HandledByCalls(verdicts[1..], calls);
  }

  /** An accepted first entry is handled by the first call for the rest. */
  lemma FirstAccepted<B>(verdicts: seq<Option<B>>, calls: nat)
    requires |verdicts| > 1 && verdicts[0].Some?
    ensures CallsToEmpty(verdicts) == CallsToEmpty(verdicts[1..]) > 0
    ensures calls > 0 ==> HandledByCalls(verdicts, calls) == [verdicts[0].value] + HandledByCalls(verdicts[1..], calls)
  {
    assert Remaining(verdicts) == Remaining(verdicts[1..]);
    assert Leading(verdicts) == [verdicts[0].value] + Leading(verdicts[1..]);
  }

  /** One drain call leaves accepted entries behind exactly when a rejected entry stands before
      one of them: the loop takes it for the end of the queue. */
  lemma StopsEarlyIff<B>(verdicts: seq<Option<B>>)
    ensures Values(Remaining(verdicts)) != [] <==>
              exists i, j | 0 <= i < j < |verdicts| :: verdicts[i].None? && verdicts[j].Some?
  {
    var n := OneCall(verdicts);
    var rest := Remaining(verdicts);
    NoValuesIff(rest);
    if j :| 0 <= j < |rest| && rest[j].Some? {
      assert verdicts[n].None? && verdicts[n + 1 + j].Some?;
    }
    if i, j :| 0 <= i < j < |verdicts| && verdicts[i].None? && verdicts[j].Some? {
      assert n <= i && rest[j - n - 1].Some?;
    }
  }

  lemma {:induction false} NoValuesIff<B>(verdicts: seq<Option<B>>)
    ensures Values(verdicts) == [] <==> forall i | 0 <= i < |verdicts| :: verdicts[i].None?
  {
    if verdicts == [] {
    } else {
      NoValuesIff(verdicts[1..]);
      assert verdicts == [verdicts[0]] + verdicts[1..];
    }
  }

  // ----- Commands -----

  function CommandPolicy(sign: string -> string): Policy<Command> {
    Policy(Canonical, sign, (body: Command, now: int) => body.expiresAt >= now)
  }

  /** Tasks carry no expiry: only their form and signature are checked. */
  function TaskPolicy<B>(canonical: B -> string, sign: string -> string): Policy<B> {
    Policy(canonical, sign, (body: B, now: int) => true)
  }

  /** The body that `send` signs at time `now`. */
  function CommandBody(commandId: string, action: string, targetId: int, actorId: Option<int>,
                       actorRole: Option<string>, now: int): Command
  {
    Command(commandId, now, now + COMMAND_TTL, action, targetId, actorId, actorRole)
  }

  /** The entry that a push leaves at the end of the queue. */
  function SentEntry<B>(policy: Policy<B>, body: B): Entry<B> {
    Message(body, Some(Signature(policy, body)))
  }

  method Send(bus: SignedQueue<Command>, commandId: string, action: string, targetId: int,
              actorId: Option<int>, actorRole: Option<string>, now: int)
    modifies bus
    ensures var body := CommandBody(commandId, action, targetId, actorId, actorRole, now);
            bus.entries == old(bus.entries) + [SentEntry(bus.policy, body)]
    ensures bus.popped == old(bus.popped)
  {
    bus.Push(Command(commandId, now, now + COMMAND_TTL, action, targetId, actorId, actorRole));
  }

  /** The entries that a run of `send` calls leaves in an empty queue. */
  ghost function Sent<B>(policy: Policy<B>, bodies: seq<B>): seq<Entry<B>> {
    if bodies == [] then [] else [SentEntry(policy, bodies[0])] + Sent(policy, bodies[1..])
  }

  /** The commands that are popped at most 300 seconds after they were sent. */
  ghost function InTime(bodies: seq<Command>, clock: nat -> int, popped: nat): seq<Command> {
    if bodies == [] then [] else
    (if clock(popped) - bodies[0].ts <= 300 then [bodies[0]] else []) + InTime(bodies[1..], clock, popped + 1)
  }

  /** Round trip: the commands that the drain loops handle are, unchanged and in order, those
      that were sent and popped within 300 seconds; the others are dropped. */
  lemma SentCommandsHandled(sign: string -> string, bodies: seq<Command>, clock: nat -> int, popped: nat)
    requires forall s :: sign(s) != ""
    requires forall i | 0 <= i < |bodies| :: bodies[i].expiresAt == bodies[i].ts + COMMAND_TTL
    ensures var policy := CommandPolicy(sign);
            var verdicts := JudgeAll(policy, clock, Sent(policy, bodies), popped);
            HandledByCalls(verdicts, CallsToEmpty(verdicts)) == InTime(bodies, clock, popped)
  {
    var policy := CommandPolicy(sign);
    DrainIsComplete(JudgeAll(policy, clock, Sent(policy, bodies), popped));
    SentCommandsAccepted(sign, bodies, clock, popped);
  }

  lemma {:induction false} SentCommandsAccepted(sign: string -> string, bodies: seq<Command>, clock: nat -> int,
                                                popped: nat)
    requires forall s :: sign(s) != ""
    requires forall i | 0 <= i < |bodies| :: bodies[i].expiresAt == bodies[i].ts + COMMAND_TTL
    ensures var policy := CommandPolicy(sign);
            Values(JudgeAll(policy, clock, Sent(policy, bodies), popped)) == InTime(bodies, clock, popped)
  {
    if bodies == [] {
    } else {
      SentCommandsAccepted(sign, bodies[1..], clock, popped + 1);
    }
  }

  /** The command is one of those that were sent, but for the way in which a missing role reads. */
  ghost predicate WasSent(sent: set<Command>, c: Command) {
    exists s :: s in sent && c == s.(actorRole := c.actorRole) && OrNone(c.actorRole) == OrNone(s.actorRole)
  }

  /** The signature of an entry was issued for some command that was sent; its body may be anything. */
  ghost predicate SignedForSent(sign: string -> string, sent: set<Command>, entry: Entry<Command>) {
    entry.Message? && entry.signature.Some? && entry.signature.value != "" ==>
      exists s :: s in sent && entry.signature.value == sign(Canonical(s))
  }

  /** What the signature is for: whatever has happened to the bodies on the way, the drain loops
      handle only commands that were sent, with the action, target and expiry they were sent with. */
  lemma HandledCommandsWereSent(sign: string -> string, sent: set<Command>, entries: seq<Entry<Command>>,
                                clock: nat -> int, popped: nat)
    requires forall s, t :: sign(s) == sign(t) ==> s == t
    requires forall c | c in sent :: Separate(c)
    requires forall i | 0 <= i < |entries| :: SignedForSent(sign, sent, entries[i])
    ensures var verdicts := JudgeAll(CommandPolicy(sign), clock, entries, popped);
            forall c | c in HandledByCalls(verdicts, CallsToEmpty(verdicts)) :: WasSent(sent, c)
  {
    DrainIsComplete(JudgeAll(CommandPolicy(sign), clock, entries, popped));
    AcceptedCommandsWereSent(sign, sent, entries, clock, popped);
  }

  lemma {:induction false} AcceptedCommandsWereSent(sign: string -> string, sent: set<Command>,
                                                    entries: seq<Entry<Command>>,
                                                    clock: nat -> int, popped: nat)
    requires forall s, t :: sign(s) == sign(t) ==> s == t
    requires forall c | c in sent :: Separate(c)
    requires forall i | 0 <= i < |entries| :: SignedForSent(sign, sent, entries[i])
    ensures forall c | c in Values(JudgeAll(CommandPolicy(sign), clock, entries, popped)) :: WasSent(sent, c)
  {
    if entries == [] {
    } else {
      AcceptedCommandsWereSent(sign, sent, entries[1..], clock, popped + 1);
      var verdict := Judge(CommandPolicy(sign), entries[0], clock(popped));
      if verdict.Some? {
        assert SignedForSent(sign, sent, entries[0]);
        var s :| s in sent && entries[0].signature.value == sign(Canonical(s));
        CanonicalDetermines(s, verdict.value);
        assert WasSent(sent, verdict.value);
      }
    }
  }

  /** Tasks do not expire: every one that was enqueued is handled, once and in order. */
  lemma {:induction false} EnqueuedTasksHandled<B>(canonical: B -> string, sign: string -> string, bodies: seq<B>,
                                                   clock: nat -> int, popped: nat)
    requires forall s :: sign(s) != ""
    ensures var policy := TaskPolicy(canonical, sign);
            var verdicts := JudgeAll(policy, clock, Sent(policy, bodies), popped);
            CallsToEmpty(verdicts) <= 1 && HandledByCalls(verdicts, CallsToEmpty(verdicts)) == bodies
  {
    if bodies == [] {
    } else {
      var policy := TaskPolicy(canonical, sign);
      EnqueuedTasksHandled(canonical, sign, bodies[1..], clock, popped + 1);
      var verdicts := JudgeAll(policy, clock, Sent(policy, bodies), popped);
      assert verdicts[0] == Some(bodies[0]);
      assert verdicts[1..] == JudgeAll(policy, clock, Sent(policy, bodies[1..]), popped + 1);
    }
  }
}
