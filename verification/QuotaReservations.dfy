/** Per-block quota reservations: CreatePerBlockReservationsWithSizes (internal/protocol/quota_helpers.go:86-120)
    over CheckWithReservation (internal/quota/quota.go:236-266). */
module QuotaReservations {
  import opened Wrappers
  import opened Cids

  datatype Kind = Upload | Storage

  datatype Reservation = Reservation(id: nat, kind: Kind, cid: Cid, bytes: nat)

  /** What the quota service answers to a check. A denied check may have made a reservation all the same. */
  datatype Answer = Failed | Denied(held: bool) | Allowed

  /** The answers of one run: each block is checked at most once for each kind. */
  datatype Answers = Answers(upload: map<Cid, Answer>, storage: map<Cid, Answer>)

  datatype BlockReservations = BlockReservations(upload: Option<Reservation>, storage: Option<Reservation>)

  function HeldBy(b: BlockReservations): set<Reservation> {
    (if b.upload.Some? then {b.upload.value} else {}) + (if b.storage.Some? then {b.storage.value} else {})
  }

  ghost function HeldByAll(m: map<Cid, BlockReservations>): set<Reservation> {
    set c, r | c in m && r in HeldBy(m[c]) :: r
  }

  function Outside(m: map<Cid, BlockReservations>, todo: set<Cid>): map<Cid, BlockReservations> {
    map c | c in m && c !in todo :: m[c]
  }

  /** Both checks of the block succeed. */
  predicate Granted(answers: Answers, c: Cid) {
    && c in answers.upload && answers.upload[c] == Allowed
    && c in answers.storage && answers.storage[c] == Allowed
  }

  function AnswerTo(answers: Answers, kind: Kind, c: Cid): Answer {
    var known := if kind == Upload then answers.upload else answers.storage;
    if c in known then known[c] else Failed
  }

  /** The reservations of one block. */
  predicate Reserved(b: BlockReservations, c: Cid, bytes: nat, available: bool) {
    if !available then b == BlockReservations(None, None)
    else
      && b.upload.Some? && b.upload.value.kind == Upload && b.upload.value.cid == c && b.upload.value.bytes == bytes
      && b.storage.Some? && b.storage.value.kind == Storage && b.storage.value.cid == c
      && b.storage.value.bytes == bytes
  }

  /** The quota service, if there is one, and its outstanding reservations. */
  class QuotaService {
    const available: bool
    const answers: Answers
    var outstanding: set<Reservation>
    var nextId: nat

    ghost predicate Valid()
      reads this
    {
      forall r :: r in outstanding ==> r.id < nextId
    }

    constructor (available: bool, answers: Answers)
      ensures Valid() && outstanding == {} && this.available == available && this.answers == answers
    {
      this.available, this.answers := available, answers;
      outstanding, nextId := {}, 0;
    }

    method Release(r: Option<Reservation>)
      requires Valid()
      modifies this
      ensures Valid() && nextId == old(nextId)
      ensures outstanding == old(outstanding) - (if r.Some? then {r.value} else {})
    {
      if r.Some? {
        outstanding := outstanding - {r.value};
      }
    }

    /** Ok(None): there is no quota service. */
    method CheckWithReservation(kind: Kind, c: Cid, bytes: nat) returns (r: Result<Option<Reservation>, Kind>)
      requires Valid()
      modifies this
      ensures Valid() && old(nextId) <= nextId
      ensures r.Ok? <==> !available || AnswerTo(answers, kind, c) == Allowed
      ensures r.Err? ==> outstanding == old(outstanding)
      ensures r.Ok? && !available ==> r.value == None && outstanding == old(outstanding)
      ensures r.Ok? && available ==> r.value == Some(Reservation(old(nextId), kind, c, bytes))
                                     && outstanding == old(outstanding) + {r.value.value} && nextId == old(nextId) + 1
    {
      if !available {
        return Ok(None);
      }
      var answer := AnswerTo(answers, kind, c);
      if answer == Failed {
        return Err(kind);
      }
      var held := Reservation(nextId, kind, c, bytes);
      nextId := nextId + 1;
      if answer.Denied? {
        if answer.held {
          outstanding := outstanding + {held};
          Release(Some(held));
        }
        return Err(kind);
      }
      outstanding := outstanding + {held};
      return Ok(Some(held));
    }

    method ReleaseAll(b: BlockReservations)
      requires Valid()
      modifies this
      ensures Valid() && nextId == old(nextId) && outstanding == old(outstanding) - HeldBy(b)
    {
      Release(b.upload);
      Release(b.storage);
    }

    method ReleaseBlockReservationsMap(m: map<Cid, BlockReservations>)
      requires Valid()
      modifies this
      ensures Valid() && nextId == old(nextId) && outstanding == old(outstanding) - HeldByAll(m)
    {
      var todo := m.Keys;
      while todo != {}
        invariant Valid() && nextId == old(nextId) && todo <= m.Keys
        invariant outstanding == old(outstanding) - HeldByAll(Outside(m, todo))
        decreases |todo|
      {
        var c :| c in todo;
        HeldByOneMore(Outside(m, todo), c, m[c]);
        assert Outside(m, todo)[c := m[c]] == Outside(m, todo - {c});
        ReleaseAll(m[c]);
        todo := todo - {c};
      }
      assert Outside(m, todo) == m;
    }

    /** Both reservations of one block, or none. */
    method ReserveBlock(c: Cid, bytes: nat) returns (r: Result<BlockReservations, Kind>)
      requires Valid()
      modifies this
      ensures Valid() && old(nextId) <= nextId
      ensures r.Ok? <==> !available || Granted(answers, c)
      ensures r.Err? ==> outstanding == old(outstanding)
      ensures r.Ok? ==> Reserved(r.value, c, bytes, available) && outstanding == old(outstanding) + HeldBy(r.value)
      ensures r.Ok? ==> forall x :: x in HeldBy(r.value) ==> x.id >= old(nextId)
    {
      var upload := CheckWithReservation(Upload, c, bytes);
      if upload.Err? {
        return Err(Upload);
      }
      var storage := CheckWithReservation(Storage, c, bytes);
      if storage.Err? {
        Release(upload.value);
        return Err(Storage);
      }
      return Ok(BlockReservations(upload.value, storage.value));
    }

    /** One round of the loop: the block is added to those made, or everything made is released. */
    method AddBlock(made: map<Cid, BlockReservations>, c: Cid, bytes: nat, ghost before: set<Reservation>,
                    ghost id: nat)
      returns (r: Result<BlockReservations, Kind>)
      requires Valid() && Ledger(before, outstanding, made, id) && c !in made && id <= nextId
      requires forall x :: x in before ==> x.id < id
      modifies this
      ensures Valid() && old(nextId) <= nextId
      ensures r.Ok? <==> !available || Granted(answers, c)
      ensures r.Err? ==> outstanding == before
      ensures r.Ok? ==> Reserved(r.value, c, bytes, available) && Ledger(before, outstanding, made[c := r.value], id)
    {
      r := ReserveBlock(c, bytes);
      if r.Err? {
        ReleaseBlockReservationsMap(made);
        Restored(before, HeldByAll(made), id);
      } else {
        HeldByOneMore(made, c, r.value);
      }
    }

    /** All or nothing, in whatever order the sizes are walked: on an error the outstanding reservations are
        those there were before; on success there is one upload and one storage reservation more for each block
        that is not empty, and they are in the result. */
    method CreatePerBlockReservationsWithSizes(sizes: map<Cid, nat>)
      returns (r: Result<map<Cid, BlockReservations>, Kind>)
      requires Valid()
      modifies this
      ensures Valid()
      ensures r.Ok? <==> !available || AllGranted(answers, sizes)
      ensures r.Err? ==> outstanding == old(outstanding)
      ensures r.Ok? ==> Made(r.value, sizes, {}, available)
      ensures r.Ok? ==> Grown(old(outstanding), outstanding, r.value)
    {
      var made: map<Cid, BlockReservations> := map[];
      var todo := sizes.Keys;
      ghost var before, id := outstanding, nextId;
      while todo != {}
        invariant Valid() && todo <= sizes.Keys && id <= nextId
        invariant Made(made, sizes, todo, available) && Ledger(before, outstanding, made, id)
        invariant available ==> forall c :: c in made ==> Granted(answers, c)
        decreases |todo|
      {
        var c :| c in todo;
        if sizes[c] > 0 {
          var block := AddBlock(made, c, sizes[c], before, id);
          if block.Err? {
            return Err(block.error);
          }
          MadeOneMore(made, sizes, todo, available, c, block.value);
          made := made[c := block.value];
        } else {
          assert Made(made, sizes, todo - {c}, available);
        }
        todo := todo - {c};
      }
      NewIsDisjoint(made, before, outstanding, id);
      return Ok(made);
    }
  }

  /** The blocks done so far have their reservations. */
  predicate Made(made: map<Cid, BlockReservations>, sizes: map<Cid, nat>, todo: set<Cid>, available: bool)
  {
    && (forall c :: c in sizes && c !in todo && sizes[c] > 0 ==> c in made)
    && (forall c :: c in made ==> c in sizes && c !in todo && sizes[c] > 0 && Reserved(made[c], c, sizes[c], available))
  }

  predicate AllGranted(answers: Answers, sizes: map<Cid, nat>) {
    forall c :: c in sizes && sizes[c] > 0 ==> Granted(answers, c)
  }

  /** Exactly the reservations of the result are new. */
  ghost predicate Grown(before: set<Reservation>, now: set<Reservation>, made: map<Cid, BlockReservations>) {
    now == before + HeldByAll(made) && HeldByAll(made) !! before
  }

  /** The reservations made since the ids reached `id` are those of `made`, and nothing else has changed. */
  ghost predicate Ledger(before: set<Reservation>, now: set<Reservation>, made: map<Cid, BlockReservations>, id: nat) {
    now == before + HeldByAll(made) && forall r :: r in HeldByAll(made) ==> r.id >= id
  }

  lemma MadeOneMore(made: map<Cid, BlockReservations>, sizes: map<Cid, nat>, todo: set<Cid>, available: bool,
                    c: Cid, b: BlockReservations)
    requires Made(made, sizes, todo, available) && c in todo && c in sizes && sizes[c] > 0
    requires Reserved(b, c, sizes[c], available)
    ensures Made(made[c := b], sizes, todo - {c}, available)
  {
  }

  lemma NewIsDisjoint(made: map<Cid, BlockReservations>, before: set<Reservation>, now: set<Reservation>, id: nat)
    requires Ledger(before, now, made, id) && forall r :: r in before ==> r.id < id
    ensures Grown(before, now, made)
  {
  }

  lemma Restored(before: set<Reservation>, held: set<Reservation>, id: nat)
    requires (forall r :: r in before ==> r.id < id) && (forall r :: r in held ==> r.id >= id)
    ensures before + held - held == before
  {
  }

  lemma HeldByOneMore(m: map<Cid, BlockReservations>, c: Cid, b: BlockReservations)
    requires c !in m
    ensures HeldByAll(m[c := b]) == HeldByAll(m) + HeldBy(b)
  {
    var n := m[c := b];
    forall r | r in HeldByAll(m) + HeldBy(b) ensures r in HeldByAll(n) {
      if r in HeldBy(b) {
        assert c in n && r in HeldBy(n[c]);
      } else {
        var d :| d in m && r in HeldBy(m[d]);
        assert d in n && r in HeldBy(n[d]);
      }
    }
  }
}
