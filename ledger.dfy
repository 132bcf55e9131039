/**
 * error_nodes in duniter_ep_check.py: a `defaultdict(list)` from a node's
 * pubkey to the `(endpoint, diagnostic)` pairs appended for it. A key comes
 * into existence on its first append, and iteration follows that order.
 */
module Ledger {

  datatype Entry = Entry(endpoint: string, diagnostic: string)

  /** The dictionary's contents, and its keys in insertion order. */
  datatype Ledger = Ledger(entries: map<string, seq<Entry>>, order: seq<string>)

  const Empty: Ledger := Ledger(map[], [])

  /** The two views agree, no key repeats, and no key maps to an empty list. */
  ghost predicate Valid(l: Ledger)
  {
    && (forall k :: k in l.entries <==> k in l.order)
    && (forall i, j :: 0 <= i < j < |l.order| ==> l.order[i] != l.order[j])
    && (forall k :: k in l.entries ==> l.entries[k] != [])
  }

  /** `error_nodes[pk]` read without creating the key. */
  function Get(l: Ledger, pk: string): seq<Entry>
  {
    if pk in l.entries then l.entries[pk] else []
  }

  /** `error_nodes[pk].append(e)` */
  function Add(l: Ledger, pk: string, e: Entry): (r: Ledger)
    ensures Get(r, pk) == Get(l, pk) + [e]
    ensures forall k :: k != pk ==> Get(r, k) == Get(l, k)
    ensures r.entries.Keys == l.entries.Keys + {pk}
    ensures r.order == if pk in l.entries then l.order else l.order + [pk]
    ensures Valid(l) ==> Valid(r)
  {
    Ledger(l.entries[pk := Get(l, pk) + [e]], if pk in l.entries then l.order else l.order + [pk])
  }

  /** Appending the entries one at a time, first to last. */
  function AddAll(l: Ledger, pk: string, es: seq<Entry>): (r: Ledger)
    ensures Get(r, pk) == Get(l, pk) + es
    ensures forall k :: k != pk ==> Get(r, k) == Get(l, k)
    ensures r.order == if pk in l.entries || es == [] then l.order else l.order + [pk]
    ensures Valid(l) ==> Valid(r)
  {
    if es == [] then l
    else Add(AddAll(l, pk, es[..|es| - 1]), pk, es[|es| - 1])
  }
}
