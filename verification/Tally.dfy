/** Counting numbered things: each of the first `n`, once. */
module Tally {

  function Upto(n: nat): multiset<nat>
  {
    if n == 0 then multiset{} else Upto(n - 1) + multiset{n - 1}
  }

  lemma {:induction false} UptoOnce(n: nat, id: nat)
    ensures Upto(n)[id] == if id < n then 1 else 0
  {
    if n > 0 {
      UptoOnce(n - 1, id);
    }
  }

  lemma UptoNext(n: nat)
    ensures Upto(n + 1) == Upto(n) + multiset{n}
  {
  }
}
