/** The commands of `app/workers/commands.py` and the text of them that is signed. */
module Commands {
  import opened Common
  import opened Decimals

  const COMMAND_TTL := 300
  const SEPARATOR := '|'

  datatype Command = Command(commandId: string, ts: int, expiresAt: int, action: string, targetId: int,
                             actorId: Option<int>, actorRole: Option<string>)

  /** `str` of a value that may be None. */
  function OrNone(text: Option<string>): string {
    match text case None => "None" case Some(t) => t
  }

  function ActorText(actorId: Option<int>): string {
    OrNone(match actorId case None => None case Some(id) => Some(Text(id)))
  }

  function Fields(c: Command): seq<string> {
    [c.commandId, Text(c.ts), Text(c.expiresAt), c.action, Text(c.targetId), ActorText(c.actorId), OrNone(c.actorRole)]
  }

  function Joined(fields: seq<string>): string
    requires fields != []
  {
    if |fields| == 1 then fields[0] else fields[0] + [SEPARATOR] + Joined(fields[1..])
  }

  /** `_canonical` */
  function Canonical(c: Command): string {
    Joined(Fields(c))
  }

  /** The seven fields in their order, a missing value as `None`. */
  lemma CanonicalText(c: Command)
    ensures Canonical(c) == c.commandId + "|" + (Text(c.ts) + "|" + (Text(c.expiresAt) + "|" + (c.action + "|" + (
                              Text(c.targetId) + "|" + (
                              (if c.actorId == None then "None" else Text(c.actorId.value)) + "|" +
                              (if c.actorRole == None then "None" else c.actorRole.value))))))
  {
    var f := Fields(c);
    assert f[6..] == [f[6]] && Joined(f[6..]) == f[6];
    assert f[5..] == [f[5]] + f[6..] && f[4..] == [f[4]] + f[5..] && f[3..] == [f[3]] + f[4..];
    assert f[2..] == [f[2]] + f[3..] && f[1..] == [f[1]] + f[2..] && f == [f[0]] + f[1..];
    JoinedHead(f[0], f[1..]);
    JoinedHead(f[1], f[2..]);
    JoinedHead(f[2], f[3..]);
    JoinedHead(f[3], f[4..]);
    JoinedHead(f[4], f[5..]);
    JoinedHead(f[5], f[6..]);
  }

  lemma JoinedHead(head: string, rest: seq<string>)
    requires rest != []
    ensures Joined([head] + rest) == head + "|" + Joined(rest)
  {
  }

  // ----- What a canonical text says -----

  function Separators(s: string): nat {
    if s == "" then 0 else (if s[0] == SEPARATOR then 1 else 0) + Separators(s[1..])
  }

  lemma {:induction false} SeparatorsOfConcat(a: string, b: string)
    ensures Separators(a + b) == Separators(a) + Separators(b)
  {
    if a == "" {
      assert a + b == b;
    } else {
      SeparatorsOfConcat(a[1..], b);
      assert (a + b)[1..] == a[1..] + b;
    }
  }

  lemma {:induction false} NoSeparatorsIff(s: string)
    ensures Separators(s) == 0 <==> SEPARATOR !in s
  {
    if s == "" {
    } else {
      NoSeparatorsIff(s[1..]);
      assert s == [s[0]] + s[1..];
    }
  }

  predicate Plain(fields: seq<string>) {
    forall i | 0 <= i < |fields| :: SEPARATOR !in fields[i]
  }

  /** A text with one separator less than there are fields has plain fields. */
  lemma {:induction false} SeparatorsOfJoined(fields: seq<string>)
    requires fields != []
    ensures Separators(Joined(fields)) >= |fields| - 1
    ensures Separators(Joined(fields)) == |fields| - 1 <==> Plain(fields)
  {
    NoSeparatorsIff(fields[0]);
    if |fields| == 1 {
    } else {
      SeparatorsOfJoined(fields[1..]);
      SeparatorsOfConcat(fields[0], [SEPARATOR] + Joined(fields[1..]));
      SeparatorsOfConcat([SEPARATOR], Joined(fields[1..]));
      assert Separators([SEPARATOR]) == 1;
      assert fields[0] + [SEPARATOR] + Joined(fields[1..]) == fields[0] + ([SEPARATOR] + Joined(fields[1..]));
      assert fields == [fields[0]] + fields[1..];
    }
  }

  lemma FirstField(a: string, b: string, restA: string, restB: string)
    requires SEPARATOR !in a && SEPARATOR !in b
    requires a + [SEPARATOR] + restA == b + [SEPARATOR] + restB
    ensures a == b && restA == restB
  {
    var text := a + [SEPARATOR] + restA;
    assert text[|a|] == SEPARATOR && text[|b|] == SEPARATOR;
    assert forall i | 0 <= i < |a| :: text[i] == a[i] != SEPARATOR;
    assert forall i | 0 <= i < |b| :: text[i] == b[i] != SEPARATOR;
    assert a == text[..|a|] && b == text[..|b|];
    assert restA == text[|a| + 1..] && restB == text[|b| + 1..];
  }

  /** Plain fields can be read back from the joined text, also against fields that are not plain. */
  lemma {:induction false} JoinedDetermines(a: seq<string>, b: seq<string>)
    requires |a| == |b| > 0 && Plain(a) && Joined(a) == Joined(b)
    ensures a == b
  {
    SeparatorsOfJoined(a);
    SeparatorsOfJoined(b);
    if |a| == 1 {
    } else {
      FirstField(a[0], b[0], Joined(a[1..]), Joined(b[1..]));
      JoinedDetermines(a[1..], b[1..]);
      assert a == [a[0]] + a[1..] && b == [b[0]] + b[1..];
    }
  }

  /** No text field contains the separator, as is the case for all that `send` is called with:
      hexadecimal ids, three actions, and role names. */
  predicate Separate(c: Command) {
    SEPARATOR !in c.commandId && SEPARATOR !in c.action && (c.actorRole.Some? ==> SEPARATOR !in c.actorRole.value)
  }

  lemma ActorTextDenotes(a: Option<int>, b: Option<int>)
    ensures ActorText(a) == ActorText(b) <==> a == b
    ensures SEPARATOR !in ActorText(a)
  {
    if a.Some? {
      TextStart(a.value);
    }
    if b.Some? {
      TextStart(b.value);
    }
    if a.Some? && b.Some? {
      TextsDistinct(a.value, b.value);
    }
  }

  /** Main result: the signed text of such a command determines the whole command, against every
      other command, except that no role and the role `None` read the same. */
  lemma CanonicalDetermines(c: Command, other: Command)
    requires Separate(c)
    ensures Canonical(other) == Canonical(c) <==>
              other == c.(actorRole := other.actorRole) && OrNone(other.actorRole) == OrNone(c.actorRole)
  {
    if Canonical(other) == Canonical(c) {
      var a, b := Fields(c), Fields(other);
      TextsDistinct(c.ts, other.ts);
      TextStart(c.ts);
      TextsDistinct(c.expiresAt, other.expiresAt);
      TextStart(c.expiresAt);
      TextsDistinct(c.targetId, other.targetId);
      TextStart(c.targetId);
      ActorTextDenotes(c.actorId, other.actorId);
      JoinedDetermines(a, b);
      assert a[0] == b[0] && a[1] == b[1] && a[2] == b[2] && a[3] == b[3] && a[4] == b[4] && a[5] == b[5]
               && a[6] == b[6];
    }
  }

  /** Exactly when the signed text stands for one command only. */
  lemma UnambiguousIff(c: Command)
    requires Separate(c)
    ensures (forall other :: Canonical(other) == Canonical(c) ==> other == c) <==> OrNone(c.actorRole) != "None"
  {
    forall other ensures Canonical(other) == Canonical(c) <==>
              other == c.(actorRole := other.actorRole) && OrNone(other.actorRole) == OrNone(c.actorRole) {
      CanonicalDetermines(c, other);
    }
    if OrNone(c.actorRole) == "None" {
      var other := c.(actorRole := if c.actorRole.None? then Some("None") else None);
      assert Canonical(other) == Canonical(c) && other != c;
    }
  }
}
