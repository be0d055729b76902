/** Single use of NIP-98 auth events: the age test runs on the wall clock, the replay set
    on the monotone clock. */
module Replay {
  import opened Prelude
  import opened Auth
  import opened RateLimit

  // One request's pass through both tests: the age test at one monotone instant, the
  // replay set at another, no earlier.
  datatype Attempt = Attempt(id: string, createdAt: u64, checkedAt: nat, usedAt: nat)

  // The wall clock reads whole seconds; in step, it is the monotone clock plus an offset.
  function WallSeconds(instant: nat, offset: int): int {
    (instant + offset) / SECOND
  }

  function AgeAt(a: Attempt, offset: int): int {
    Age(WallSeconds(a.checkedAt, offset), a.createdAt)
  }

  // Only attempts that pass the age test reach the replay set.
  function SeenAfter(tries: seq<Attempt>, maxAge: i64, offset: int): Seen {
    if tries == [] then map[]
    else
      var seen := SeenAfter(tries[..|tries| - 1], maxAge, offset);
      var a := tries[|tries| - 1];
      if FreshAge(AgeAt(a, offset), maxAge) then AfterAuth(seen, a.id, ReplayWindow(maxAge), a.usedAt) else seen
  }

  predicate Accepted(tries: seq<Attempt>, maxAge: i64, offset: int, i: nat)
    requires i < |tries|
  {
    && FreshAge(AgeAt(tries[i], offset), maxAge)
    && FirstUse(SeenAfter(tries[..i], maxAge, offset), tries[i].id, ReplayWindow(maxAge), tries[i].usedAt)
  }

  predicate InOrder(tries: seq<Attempt>) {
    && (forall i, j :: 0 <= i < j < |tries| ==> tries[i].usedAt <= tries[j].usedAt)
    && (forall i :: 0 <= i < |tries| ==> tries[i].checkedAt <= tries[i].usedAt)
  }

  lemma WindowInSeconds(maxAge: i64)
    ensures maxAge >= -5 ==> ReplayWindow(maxAge) == (maxAge + 5) * SECOND
  {
  }

  // An accepted id stays in the set, stamped no earlier, until a full window has passed.
  lemma {:induction false} IdRemembered(tries: seq<Attempt>, maxAge: i64, offset: int, i: nat, j: nat, until: nat)
    requires InOrder(tries) && i < j <= |tries| && Accepted(tries, maxAge, offset, i)
    requires forall k :: 0 <= k < j ==> tries[k].usedAt <= until
    requires until - tries[i].usedAt < ReplayWindow(maxAge)
    ensures var seen := SeenAfter(tries[..j], maxAge, offset);
            tries[i].id in seen && tries[i].usedAt <= seen[tries[i].id]
  {
    hide ReplayWindow, FreshAge, AgeAt;
    assert tries[..j][..j - 1] == tries[..j - 1];
    if i < j - 1 {
      IdRemembered(tries, maxAge, offset, i, j - 1, until);
    }
  }

  // Two acceptances of one id are a full replay window apart on the monotone clock.
  lemma AcceptancesFarApart(tries: seq<Attempt>, maxAge: i64, offset: int, i: nat, j: nat)
    requires InOrder(tries) && i < j < |tries| && tries[i].id == tries[j].id
    requires Accepted(tries, maxAge, offset, i) && Accepted(tries, maxAge, offset, j)
    ensures tries[j].usedAt - tries[i].usedAt >= (maxAge + 5) * SECOND
  {
    hide SeenAfter;
    WindowInSeconds(maxAge);
    if tries[j].usedAt - tries[i].usedAt < ReplayWindow(maxAge) {
      IdRemembered(tries, maxAge, offset, i, j, tries[j].usedAt);
    }
  }

  lemma SecondsApart(a: nat, b: nat, offset: int, n: int)
    ensures b - a >= n * SECOND ==> WallSeconds(b, offset) - WallSeconds(a, offset) >= n
  {
    assert (a + offset + n * SECOND) / SECOND == (a + offset) / SECOND + n;
  }

  // With the clocks in step, and at most `delay` whole seconds between a request's age test
  // and its use of the replay set, an event accepted at age `delay - 4` or later is
  // accepted once in any run.
  lemma AcceptedOnce(tries: seq<Attempt>, maxAge: i64, offset: int, delay: nat, i: nat, j: nat)
    requires InOrder(tries) && i < j < |tries|
    requires tries[i].id == tries[j].id && tries[i].createdAt == tries[j].createdAt
    requires tries[j].usedAt - tries[j].checkedAt <= delay * SECOND
    requires Accepted(tries, maxAge, offset, i) && AgeAt(tries[i], offset) >= delay - 4
    ensures !Accepted(tries, maxAge, offset, j)
  {
    hide SeenAfter, FirstUse;
    SecondsApart(tries[i].checkedAt, tries[j].checkedAt, offset, maxAge + 5 - delay);
    if Accepted(tries, maxAge, offset, j) {
      AcceptancesFarApart(tries, maxAge, offset, i, j);
    }
  }

  // The last event of the run, presented again with its age read at `c` and its use at `u`,
  // at most `slack` nanoseconds later, is accepted a second time.
  predicate AcceptsAgain(tries: seq<Attempt>, maxAge: i64, offset: int, slack: nat, c: nat, u: nat)
    requires tries != []
  {
    var again := tries[|tries| - 1].(checkedAt := c, usedAt := u);
    && tries[|tries| - 1].usedAt <= u && c <= u <= c + slack
    && Accepted(tries + [again], maxAge, offset, |tries|)
  }

  // The last instant, and no later one, at which the wall clock reads a given second.
  lemma LastInstantOf(x: int, second: int)
    ensures x / SECOND <= second <==> x < (second + 1) * SECOND
    ensures ((second + 1) * SECOND - 1) / SECOND == second
  {
  }

  lemma AgainIsLate(tries: seq<Attempt>, maxAge: i64, offset: int, slack: nat, c: nat, u: nat)
    requires InOrder(tries) && tries != [] && Accepted(tries, maxAge, offset, |tries| - 1)
    requires AcceptsAgain(tries, maxAge, offset, slack, c, u)
    ensures var last := tries[|tries| - 1];
            last.usedAt + offset < (ToI64(last.createdAt) - 4) * SECOND + slack
  {
    hide SeenAfter, FirstUse;
    var n := |tries|;
    var again := tries + [tries[n - 1].(checkedAt := c, usedAt := u)];
    assert again[..n - 1] == tries[..n - 1] && again[..n] == tries;
    AcceptancesFarApart(again, maxAge, offset, n - 1, n);
    LastInstantOf(c + offset, ToI64(tries[n - 1].createdAt) + maxAge);
  }

  lemma LateIsAccepted(tries: seq<Attempt>, maxAge: i64, offset: int, slack: nat) returns (c: nat, u: nat)
    requires InOrder(tries) && tries != [] && Accepted(tries, maxAge, offset, |tries| - 1)
    requires var last := tries[|tries| - 1];
             last.usedAt + offset < (ToI64(last.createdAt) - 4) * SECOND + slack
    ensures AcceptsAgain(tries, maxAge, offset, slack, c, u)
  {
    var last := tries[|tries| - 1];
    var created := ToI64(last.createdAt);
    LastInstantOf(last.checkedAt + offset, created + maxAge);
    c := (created + maxAge + 1) * SECOND - 1 - offset;
    u := if c > last.usedAt + (maxAge + 5) * SECOND then c else last.usedAt + (maxAge + 5) * SECOND;
    WindowInSeconds(maxAge);
    var again := tries + [last.(checkedAt := c, usedAt := u)];
    assert again[..|tries|] == tries && tries[..|tries| - 1] + [last] == tries;
    AgeAtLastInstant(last.(checkedAt := c, usedAt := u), offset, maxAge);
    JustForgotten(tries, maxAge, offset, u);
  }

  lemma AgeAtLastInstant(a: Attempt, offset: int, maxAge: i64)
    requires a.checkedAt + offset == (ToI64(a.createdAt) + maxAge + 1) * SECOND - 1
    ensures AgeAt(a, offset) == maxAge
  {
    LastInstantOf(a.checkedAt + offset, ToI64(a.createdAt) + maxAge);
  }

  // One full window after its use an id is out of the set.
  lemma JustForgotten(tries: seq<Attempt>, maxAge: i64, offset: int, u: nat)
    requires tries != [] && Accepted(tries, maxAge, offset, |tries| - 1)
    requires u - tries[|tries| - 1].usedAt >= ReplayWindow(maxAge)
    ensures FirstUse(SeenAfter(tries, maxAge, offset), tries[|tries| - 1].id, ReplayWindow(maxAge), u)
  {
    hide ReplayWindow, AgeAt;
  }

  // An accepted event can be accepted again exactly when its use came early enough: more
  // than four seconds ahead of its stamp, give or take how long a request may take between
  // its two tests.
  lemma ReplayableIff(tries: seq<Attempt>, maxAge: i64, offset: int, slack: nat)
    requires InOrder(tries) && tries != [] && Accepted(tries, maxAge, offset, |tries| - 1)
    ensures var last := tries[|tries| - 1];
            (exists c, u :: AcceptsAgain(tries, maxAge, offset, slack, c, u))
            <==> last.usedAt + offset < (ToI64(last.createdAt) - 4) * SECOND + slack
  {
    hide AcceptsAgain, Accepted;
    var last := tries[|tries| - 1];
    if c, u :| AcceptsAgain(tries, maxAge, offset, slack, c, u) {
      AgainIsLate(tries, maxAge, offset, slack, c, u);
    }
    if last.usedAt + offset < (ToI64(last.createdAt) - 4) * SECOND + slack {
      var c, u := LateIsAccepted(tries, maxAge, offset, slack);
    }
  }

  // When the two tests of a request coincide: exactly the events accepted at age -5.
  lemma ReplayableIffAgeMinusFive(tries: seq<Attempt>, maxAge: i64, offset: int)
    requires InOrder(tries) && tries != [] && Accepted(tries, maxAge, offset, |tries| - 1)
    requires tries[|tries| - 1].usedAt == tries[|tries| - 1].checkedAt
    ensures (exists c, u :: AcceptsAgain(tries, maxAge, offset, 0, c, u)) <==> AgeAt(tries[|tries| - 1], offset) == -5
  {
    hide AcceptsAgain;
    var last := tries[|tries| - 1];
    ReplayableIff(tries, maxAge, offset, 0);
    LastInstantOf(last.usedAt + offset, ToI64(last.createdAt) - 5);
  }
}
