/** Connections in KV: the envelopes under the `conn:` keys, and listing them page by page. */
module KvPaging {
  import opened Common

  type Id = string
  type Envelope = string

  datatype Version = V1 | V2 | V3

  datatype Opened = Opened(plaintext: string, version: Version)

  datatype Page = Page(names: seq<Id>, next: Option<nat>)

  /** The first `limit` keys present from position `pos` on. */
  function Names(keys: seq<Id>, kv: map<Id, Envelope>, pos: nat, limit: nat): seq<Id>
    decreases |keys| - pos
  {
    if limit == 0 || pos >= |keys| then []
    else if keys[pos] in kv then [keys[pos]] + Names(keys, kv, pos + 1, limit - 1)
    else Names(keys, kv, pos + 1, limit)
  }

  /** Where the listing stopped. */
  function Stop(keys: seq<Id>, kv: map<Id, Envelope>, pos: nat, limit: nat): nat
    decreases |keys| - pos
  {
    if limit == 0 || pos >= |keys| then pos
    else if keys[pos] in kv then Stop(keys, kv, pos + 1, limit - 1)
    else Stop(keys, kv, pos + 1, limit)
  }

  /** kv.list: a cursor is returned exactly when a further key is present. */
  function ListKv(keys: seq<Id>, kv: map<Id, Envelope>, pos: nat, limit: nat): Page {
    var stop := Stop(keys, kv, pos, limit);
    Page(Names(keys, kv, pos, limit), if Names(keys, kv, stop, 1) == [] then None else Some(stop))
  }

  lemma {:induction false} NamesPresent(keys: seq<Id>, kv: map<Id, Envelope>, pos: nat, limit: nat)
    ensures |Names(keys, kv, pos, limit)| <= limit
    ensures forall k :: k in Names(keys, kv, pos, limit) ==> k in kv && k in keys
    decreases |keys| - pos
  {
    if limit != 0 && pos < |keys| {
      NamesPresent(keys, kv, pos + 1, if keys[pos] in kv then limit - 1 else limit);
    }
  }

  /** A listing from the start is empty only when no key is left. */
  lemma {:induction false} EmptyList(keys: seq<Id>, kv: map<Id, Envelope>, pos: nat, limit: nat)
    requires limit > 0 && Names(keys, kv, pos, limit) == []
    ensures forall i :: pos <= i < |keys| ==> keys[i] !in kv
    decreases |keys| - pos
  {
    if pos < |keys| {
      EmptyList(keys, kv, pos + 1, limit);
    }
  }
}
