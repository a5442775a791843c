/** Types shared by every module of the server model. */
module Base {

  datatype Option<+T> = None | Some(value: T)

  /** Users are named by the id they authenticate with. */
  type UserId = string

  type Byte = b: int | 0 <= b < 256

  type Bytes = seq<Byte>

  /** The order in which a set of users happens to be walked. */
  ghost predicate Lists(users: seq<UserId>, all: set<UserId>) {
    && (forall u :: u in users <==> u in all)
    && (forall i, j | 0 <= i < j < |users| :: users[i] != users[j])
  }

  /** A clock that is read once per call never runs backwards. */
  ghost predicate Nondecreasing(times: seq<int>) {
    forall i, j | 0 <= i < j < |times| :: times[i] <= times[j]
  }

  /** The least number of blocks of `size` that cover `total`. */
  function CeilDiv(total: nat, size: nat): (k: nat)
    requires size > 0
    ensures (k as int - 1) * size < total <= k * size
    ensures k == 0 <==> total == 0
  {
    (total + size - 1) / size
  }

  lemma {:induction false} CeilDivIsLeast(total: nat, size: nat, k: nat)
    requires size > 0 && total <= k * size
    ensures CeilDiv(total, size) <= k
  {
    if k < CeilDiv(total, size) { assert false; }
  }
}
