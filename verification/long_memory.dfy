/** Long-term memory's records and its withdrawal counts (internal/core long-term memory), as the
    withdrawal protocol, the purge and the erase all take them. */
module LongMemory {
  datatype Kind = FromUser | FromModel

  /** One record, with the turn that wrote it. */
  datatype Kept = Kept(turn: nat, subject: string, kind: Kind, time: int)

  function Older(records: set<Kept>, cut: int): (r: set<Kept>)
    ensures r <= records && forall k :: k in records ==> (k in r <==> k.time < cut)
  {
    set r | r in records && r.time < cut
  }

  /** What a delete of the subject leaves: one that fails may have removed some. */
  function Spared(records: set<Kept>, subject: string, ok: bool, lost: set<Kept>): (r: set<Kept>)
    ensures r <= records && forall k :: k in records && k.subject != subject ==> k in r
    ensures ok ==> forall k :: k in r ==> k.subject != subject
    ensures !ok ==> forall k :: k in records && k !in lost ==> k in r
  {
    set r | r in records && !(r.subject == subject && (ok || r in lost))
  }

  function Withdrawals(withdrawn: map<string, nat>, user: string): nat {
    if user in withdrawn then withdrawn[user] else 0
  }

  function CountedOnce(withdrawn: map<string, nat>, user: string): (r: map<string, nat>)
    ensures forall u :: Withdrawals(r, u) == Withdrawals(withdrawn, u) + if u == user then 1 else 0
  {
    withdrawn[user := Withdrawals(withdrawn, user) + 1]
  }
}
