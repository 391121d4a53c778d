/** The data side of an online schema change (dbguard/osc/runner.py, docs/OSC.md): the source and
    the shadow as maps from primary key to the row projected on the copied columns, the three AFTER
    triggers, and the `INSERT IGNORE ... FOR SHARE` of one chunk. */
module OscCopy {
  import opened Intervals
  import opened Keys

  type Row = string

  type Rows = map<Key, Row>

  datatype Event = OnInsert | OnUpdate | OnDelete

  const ALL_EVENTS := {OnInsert, OnUpdate, OnDelete}

  /** One row written by the application; an update may move the row to another key. */
  datatype Write = Insert(k: Key, row: Row) | Update(k: Key, to: Key, row: Row) | Delete(k: Key)

  predicate Applicable(live: Rows, w: Write) {
    match w
    case Insert(k, _) => k !in live
    case Update(k, to, _) => k in live && (to == k || to !in live)
    case Delete(k) => k in live
  }

  function Applied(live: Rows, w: Write): Rows {
    match w
    case Insert(k, row) => live[k := row]
    case Update(k, to, row) => (live - {k})[to := row]
    case Delete(k) => live - {k}
  }

  function EventOf(w: Write): Event {
    match w
    case Insert(_, _) => OnInsert
    case Update(_, _, _) => OnUpdate
    case Delete(_) => OnDelete
  }

  /** What the trigger does to the shadow: REPLACE the new row, DELETE the old key if it moved. */
  function Mirrored(shadow: Rows, w: Write): Rows {
    match w
    case Insert(k, row) => shadow[k := row]
    case Update(k, to, row) => (if k != to then shadow - {k} else shadow)[to := row]
    case Delete(k) => shadow - {k}
  }

  function AfterTriggers(shadow: Rows, w: Write, triggers: set<Event>): Rows {
    if EventOf(w) in triggers then Mirrored(shadow, w) else shadow
  }

  /** INSERT IGNORE of the source rows of the range: a key the shadow has keeps its row. */
  function Copied(live: Rows, shadow: Rows, lo: Option<Key>, hi: Option<Key>): Rows {
    (map k | k in live && InRange(k, lo, hi) :: live[k]) + shadow
  }

  // ----- how the two tables differ at a key

  predicate Agree(live: Rows, shadow: Rows, k: Key) {
    (k in live <==> k in shadow) && (k in live && k in shadow ==> live[k] == shadow[k])
  }

  /** The shadow has a row the source does not have like that: nothing but a later write repairs it. */
  predicate Stale(live: Rows, shadow: Rows, k: Key) {
    k in shadow && (k !in live || live[k] != shadow[k])
  }

  /** The source has a row the shadow lacks: the copy's work. */
  predicate Missing(live: Rows, shadow: Rows, k: Key) {
    k in live && k !in shadow
  }

  lemma OneOfThree(live: Rows, shadow: Rows, k: Key)
    ensures Agree(live, shadow, k) <==> !Stale(live, shadow, k) && !Missing(live, shadow, k)
    ensures !(Stale(live, shadow, k) && Missing(live, shadow, k))
  {
  }

  lemma AgreeEverywhere(live: Rows, shadow: Rows)
    ensures live == shadow <==> forall k :: Agree(live, shadow, k)
  {
    if forall k :: Agree(live, shadow, k) {
      forall k ensures k in live.Keys <==> k in shadow.Keys {
        assert Agree(live, shadow, k);
      }
      assert live.Keys == shadow.Keys;
      forall k | k in live ensures live[k] == shadow[k] {
        assert Agree(live, shadow, k);
      }
    }
  }

  /** With the trigger of its kind in place a write leaves its own keys equal and touches no other. */
  lemma WriteMirrored(live: Rows, shadow: Rows, w: Write, k: Key)
    requires Applicable(live, w)
    ensures Agree(live, shadow, k) ==> Agree(Applied(live, w), Mirrored(shadow, w), k)
    ensures Stale(Applied(live, w), Mirrored(shadow, w), k) ==> Stale(live, shadow, k)
    ensures Missing(Applied(live, w), Mirrored(shadow, w), k) ==> Missing(live, shadow, k)
  {
  }

  /** A chunk copy fills what is missing in its range and changes nothing else. */
  lemma CopyFills(live: Rows, shadow: Rows, lo: Option<Key>, hi: Option<Key>, k: Key)
    ensures Agree(live, shadow, k) ==> Agree(live, Copied(live, shadow, lo, hi), k)
    ensures Stale(live, Copied(live, shadow, lo, hi), k) <==> Stale(live, shadow, k)
    ensures Missing(live, Copied(live, shadow, lo, hi), k) <==> Missing(live, shadow, k) && !InRange(k, lo, hi)
  {
  }

  // ----- the checksum of a range

  function Part(rows: Rows, r: ChunkRange): Rows {
    map k | k in rows && r.Has(k) :: rows[k]
  }

  /** Equal parts, which is what a matching count and checksum without a collision mean, are
      agreement at every key of the range. */
  lemma PartsAgree(live: Rows, shadow: Rows, r: ChunkRange)
    ensures Part(live, r) == Part(shadow, r) <==> forall k :: r.Has(k) ==> Agree(live, shadow, k)
  {
    var a, b := Part(live, r), Part(shadow, r);
    forall k | r.Has(k) ensures Agree(live, shadow, k) <==> Agree(a, b, k) {
      assert (k in a <==> k in live) && (k in b <==> k in shadow);
    }
    AgreeEverywhere(a, b);
    forall k | !r.Has(k) ensures Agree(a, b, k) {
    }
    if forall k :: r.Has(k) ==> Agree(live, shadow, k) {
      assert forall k :: Agree(a, b, k);
    }
  }
}
