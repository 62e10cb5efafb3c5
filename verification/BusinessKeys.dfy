/** Idempotency keys of ledger rows (src/common/prisma/lesson-transaction.ts). */
module BusinessKeys {
  import opened Common

  function CheckInKey(studentId: Id, scheduleId: Id): string {
    "checkin:" + studentId + ":" + scheduleId
  }

  /** `uuid` is the random part of an adjustment's key. */
  function AdjustKey(membershipId: Id, uuid: string): string {
    "adjust:" + membershipId + ":" + uuid
  }

  predicate ColonFree(id: Id) {
    ':' !in id
  }

  predicate FirstColonAt(s: string, i: int) {
    0 <= i < |s| && s[i] == ':' && forall j :: 0 <= j < i ==> s[j] != ':'
  }

  lemma SplitAtFirstColon(a: string, b: string, c: string, d: string)
    requires ColonFree(a) && ColonFree(c)
    requires a + ":" + b == c + ":" + d
    ensures a == c && b == d
  {
    var whole := a + ":" + b;
    assert whole[..|a|] == a && whole[|a| + 1..] == b;
    assert whole[..|c|] == c && whole[|c| + 1..] == d;
    assert FirstColonAt(whole, |a|) && FirstColonAt(whole, |c|);
  }

  lemma AfterPrefix(p: string, x: string, y: string)
    requires p + x == p + y
    ensures x == y
  {
    assert x == (p + x)[|p|..] && y == (p + y)[|p|..];
  }

  /** A check-in key names one student and one schedule, as long as student ids hold no colon. */
  lemma CheckInKeyInjective(s1: Id, c1: Id, s2: Id, c2: Id)
    requires ColonFree(s1) && ColonFree(s2)
    ensures CheckInKey(s1, c1) == CheckInKey(s2, c2) <==> s1 == s2 && c1 == c2
  {
    if CheckInKey(s1, c1) == CheckInKey(s2, c2) {
      assert CheckInKey(s1, c1) == "checkin:" + (s1 + ":" + c1);
      assert CheckInKey(s2, c2) == "checkin:" + (s2 + ":" + c2);
      AfterPrefix("checkin:", s1 + ":" + c1, s2 + ":" + c2);
      SplitAtFirstColon(s1, c1, s2, c2);
    }
  }

  /** An adjustment key names one card and one random part under the same proviso. */
  lemma AdjustKeyInjective(m1: Id, u1: string, m2: Id, u2: string)
    requires ColonFree(m1) && ColonFree(m2)
    ensures AdjustKey(m1, u1) == AdjustKey(m2, u2) <==> m1 == m2 && u1 == u2
  {
    if AdjustKey(m1, u1) == AdjustKey(m2, u2) {
      assert AdjustKey(m1, u1) == "adjust:" + (m1 + ":" + u1);
      assert AdjustKey(m2, u2) == "adjust:" + (m2 + ":" + u2);
      AfterPrefix("adjust:", m1 + ":" + u1, m2 + ":" + u2);
      SplitAtFirstColon(m1, u1, m2, u2);
    }
  }

  /** The two kinds of key never meet, whatever the ids. */
  lemma KeyKindsDisjoint(studentId: Id, scheduleId: Id, membershipId: Id, uuid: string)
    ensures CheckInKey(studentId, scheduleId) != AdjustKey(membershipId, uuid)
  {
    assert CheckInKey(studentId, scheduleId)[0] == 'c';
    assert AdjustKey(membershipId, uuid)[0] == 'a';
  }

  /**
   * Exactly which students can share a key at some schedules: those of whom one's id continues the other's
   * with a colon.
   */
  lemma StudentsCollideIff(s1: Id, s2: Id)
    requires s1 != s2
    ensures (exists c1, c2 :: CheckInKey(s1, c1) == CheckInKey(s2, c2)) <==> s1 + ":" <= s2 || s2 + ":" <= s1
  {
    if c1, c2 :| CheckInKey(s1, c1) == CheckInKey(s2, c2) {
      CollidingIdsContinue(s1, c1, s2, c2);
    }
    if s1 + ":" <= s2 {
      ContinuedIdsCollide(s1, s2);
    } else if s2 + ":" <= s1 {
      ContinuedIdsCollide(s2, s1);
    }
  }

  lemma CollidingIdsContinue(s1: Id, c1: Id, s2: Id, c2: Id)
    requires s1 != s2 && CheckInKey(s1, c1) == CheckInKey(s2, c2)
    ensures s1 + ":" <= s2 || s2 + ":" <= s1
  {
    assert CheckInKey(s1, c1) == "checkin:" + (s1 + ":" + c1);
    assert CheckInKey(s2, c2) == "checkin:" + (s2 + ":" + c2);
    AfterPrefix("checkin:", s1 + ":" + c1, s2 + ":" + c2);
    var whole := s1 + ":" + c1;
    assert whole == s2 + ":" + c2 && whole[..|s1|] == s1 && whole[..|s2|] == s2;
    assert whole[..|s1| + 1] == s1 + ":" && whole[..|s2| + 1] == s2 + ":";
    assert |s1| < |s2| ==> s2[..|s1| + 1] == s1 + ":";
    assert |s2| < |s1| ==> s1[..|s2| + 1] == s2 + ":";
  }

  lemma ContinuedIdsCollide(short: Id, long: Id)
    requires short + ":" <= long
    ensures CheckInKey(short, long[|short| + 1..] + ":") == CheckInKey(long, "")
    ensures exists c1, c2 :: CheckInKey(short, c1) == CheckInKey(long, c2)
    ensures exists c1, c2 :: CheckInKey(long, c1) == CheckInKey(short, c2)
  {
    var rest := long[|short| + 1..];
    assert long == short + ":" + rest;
    assert CheckInKey(short, rest + ":") == CheckInKey(long, "");
  }

  /** The proviso is needed: with a colon in the student id two check-ins share a key. */
  lemma ColonsCollide()
    ensures CheckInKey("a:b", "c") == CheckInKey("a", "b:c")
  {
  }
}
