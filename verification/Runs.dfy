/** Building runs: requests served whole or in part, and the states they lead to. */
module Runs {
  import opened Prelude
  import opened Names
  import opened Tables
  import opened Api
  import opened Protocol
  import opened Interleaving
  import opened Serialized
  import opened Effects

  // One more request, served to its end with nobody else moving.
  lemma ServeWhole(cfg: Config, acts: seq<Action>, auth: string, target: Target, inp: Input) returns (more: seq<Action>)
    ensures acts <= more
    ensures var w, w' := Exec(cfg, Start, acts), Exec(cfg, Start, more);
            var out := Complete(cfg, w.db, Begin(cfg, auth, target, inp.now), inp);
            w'.db == out.db && w'.flights == w.flights + [out.flight]
  {
    hide Begin, Complete;
    var w := Exec(cfg, Start, acts);
    ExecAppend(cfg, Start, acts, Arrive(auth, target, inp.now));
    more := AdvanceToEnd(cfg, Start, acts + [Arrive(auth, target, inp.now)], |w.flights|, inp);
  }

  // A request arrives and takes its first step.
  lemma StartOnly(cfg: Config, acts: seq<Action>, auth: string, target: Target, inp: Input) returns (more: seq<Action>)
    ensures acts <= more
    ensures var w, w' := Exec(cfg, Start, acts), Exec(cfg, Start, more);
            var out := Next(cfg, w.db, Begin(cfg, auth, target, inp.now), inp);
            w'.db == out.db && w'.flights == w.flights + [out.flight]
  {
    hide Begin, Next;
    var w := Exec(cfg, Start, acts);
    var a := acts + [Arrive(auth, target, inp.now)];
    ExecAppend(cfg, Start, acts, Arrive(auth, target, inp.now));
    more := a + [Advance(|w.flights|, inp)];
    ExecAppend(cfg, Start, a, Advance(|w.flights|, inp));
  }

  lemma StepOf(cfg: Config, acts: seq<Action>, who: nat, inp: Input) returns (more: seq<Action>)
    requires who < |Exec(cfg, Start, acts).flights|
    ensures more == acts + [Advance(who, inp)]
    ensures var w, w' := Exec(cfg, Start, acts), Exec(cfg, Start, more);
            var out := Next(cfg, w.db, w.flights[who], inp);
            w'.db == out.db && w'.flights == w.flights[who := out.flight]
  {
    hide Next;
    more := acts + [Advance(who, inp)];
    ExecAppend(cfg, Start, acts, Advance(who, inp));
  }

  lemma CanonicalName(name: string, min: nat, max: nat)
    requires ValidName(name, min, max)
    ensures Lower(name) == name
  {
    forall i | 0 <= i < |name| ensures LowerChar(name[i]) == name[i] {
      assert LowerAlnum(name[i]) || name[i] in "._-";
    }
  }

  lemma CanonicalKey(key: string)
    requires ValidPubkeyHex(key)
    ensures Lower(key) == key
  {
  }

  lemma BeginRegister(cfg: Config, name: string, key: string, now: int)
    requires GoodName(cfg, name) && ValidPubkeyHex(key)
    ensures Begin(cfg, key, ToRegister(Some(RegisterBody(name, key))), now) == RegLookup(name, key, key)
  {
    CanonicalName(name, cfg.nameMin, cfg.nameMax);
    CanonicalKey(key);
  }

  lemma BeginUnregister(cfg: Config, name: string, key: string, now: int)
    requires GoodName(cfg, name)
    ensures Begin(cfg, key, ToUnregister(name), now) == UnregLookup(name, key)
  {
    CanonicalName(name, cfg.nameMin, cfg.nameMax);
  }

  // Registers a free name for a key that holds none.
  lemma RegisterNow(cfg: Config, acts: seq<Action>, name: string, key: string, inp: Input) returns (more: seq<Action>)
    requires GoodName(cfg, name) && ValidPubkeyHex(key)
    requires !Active(Exec(cfg, Start, acts).db.names, name) && !HasName(Exec(cfg, Start, acts).db.names, key)
    ensures acts <= more
    ensures var w, w' := Exec(cfg, Start, acts), Exec(cfg, Start, more);
            w'.db == w.db.(names := w.db.names[name := NameRow(key, inp.now, None)])
            && |w'.flights| == |w.flights| + 1 && w'.flights[..|w.flights|] == w.flights
  {
    hide Begin, Complete, GoodName, HasName;
    more := ServeWhole(cfg, acts, key, ToRegister(Some(RegisterBody(name, key))), inp);
    BeginRegister(cfg, name, key, inp.now);
    RegisterEffect(cfg, Exec(cfg, Start, acts).db, name, key, key, inp);
  }

  lemma EmptyRun(cfg: Config)
    ensures Exec(cfg, Start, []) == Start
  {
  }

  lemma NobodyHasName(key: string)
    ensures !HasName(map[], key)
  {
  }

  lemma OnlyReleased(names: map<string, NameRow>, name: string, key: string)
    requires forall n :: n in names ==> n == name && !Active(names, n)
    ensures !HasName(names, key)
  {
  }

  lemma OneHolder(names: map<string, NameRow>, name: string, owner: string, key: string)
    requires forall n :: n in names ==> n == name
    requires Holds(names, name, owner) && key != owner
    ensures !HasName(names, key)
  {
  }

  lemma RowOfEvent(cfg: Config, seller: string, e: OfferEvent, now: int)
    requires RowFromEvent(cfg, seller, Some(e), now).Ok?
    ensures var row := RowFromEvent(cfg, seller, Some(e), now).value;
            row.offerId == e.id && row.seller == seller && row.createdAt == now && LiveAt(row, now)
                && row.status == Live
  {
  }

  lemma NoOffers(name: string, address: string, now: int)
    ensures !LiveOfferForName(map[], name, now) && !LiveOfferBinding(map[], address, now)
  {
  }

  // Takes in an offer while no other is lodged.
  lemma LodgeAlone(cfg: Config, acts: seq<Action>, seller: string, e: OfferEvent, inp: Input)
    returns (more: seq<Action>)
    requires RowFromEvent(cfg, seller, Some(e), inp.now).Ok?
    requires Exec(cfg, Start, acts).db.offers == map[]
    requires Holds(Exec(cfg, Start, acts).db.names, RowFromEvent(cfg, seller, Some(e), inp.now).value.name, seller)
    ensures acts <= more
    ensures Exec(cfg, Start, more).db
            == Exec(cfg, Start, acts).db.(offers := map[e.id := RowFromEvent(cfg, seller, Some(e), inp.now).value])
    ensures var row := RowFromEvent(cfg, seller, Some(e), inp.now).value;
            row.offerId == e.id && row.seller == seller && row.status == Live
  {
    hide Complete, RowFromEvent, LiveOfferForName, LiveOfferBinding, Exec;
    var row := RowFromEvent(cfg, seller, Some(e), inp.now).value;
    RowOfEvent(cfg, seller, e, inp.now);
    NoOffers(row.name, row.proofAddress, inp.now);
    more := ServeWhole(cfg, acts, seller, ToLodge(Some(e)), inp);
    LodgeEffect(cfg, Exec(cfg, Start, acts).db, row, inp);
  }
}
