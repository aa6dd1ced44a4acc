/** The key that names one user of one node (common/format/user.go). */
module Format {

  function UserTag(tag: string, uuid: string): string {
    tag + "|" + uuid
  }

  /** The source appends the three parts to one buffer. */
  method BuildUserTag(tag: string, uuid: string) returns (b: string)
    ensures b == UserTag(tag, uuid)
  {
    b := [];
    b := b + tag;
    b := b + ['|'];
    b := b + uuid;
  }

  /** The uuid part of a key built with this tag. */
  function UuidOf(tag: string, email: string): string
    requires |tag| < |email|
  {
    email[|tag| + 1..]
  }

  lemma UuidOfUserTag(tag: string, uuid: string)
    ensures UuidOf(tag, UserTag(tag, uuid)) == uuid
  {
  }

  /** Within one node, two users never share a key. */
  lemma UserTagInjective(tag: string, u1: string, u2: string)
    requires UserTag(tag, u1) == UserTag(tag, u2)
    ensures u1 == u2
  {
    UuidOfUserTag(tag, u1);
    UuidOfUserTag(tag, u2);
  }

  /** Across nodes the keys are distinct as long as no uuid contains the separator ... */
  lemma UserTagIdentifies(t1: string, u1: string, t2: string, u2: string)
    requires '|' !in u1 && '|' !in u2
    ensures UserTag(t1, u1) == UserTag(t2, u2) <==> t1 == t2 && u1 == u2
  {
    var e1, e2 := UserTag(t1, u1), UserTag(t2, u2);
    if e1 == e2 {
      assert e1[|t1|] == '|' && e2[|t2|] == '|';
      assert forall i | |t1| < i < |e1| :: e1[i] == u1[i - |t1| - 1];
      assert forall i | |t2| < i < |e2| :: e2[i] == u2[i - |t2| - 1];
      assert t1 == e1[..|t1|] && t2 == e2[..|t2|];
      UuidOfUserTag(t1, u1);
      UuidOfUserTag(t2, u2);
    }
  }

  /** ... and a separator inside a uuid is enough to make two nodes' keys collide. */
  lemma SeparatorInUuidCollides(t: string, v: string, u: string)
    ensures UserTag(t, v + "|" + u) == UserTag(t + "|" + v, u)
  {
    assert t + "|" + (v + "|" + u) == (t + "|" + v) + "|" + u;
  }
}
