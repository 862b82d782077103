/** A byte made from a small number has that number. The byte is reached by counting up, so that no
    single step relates more than one addition to its number. */
module SmallBytes {
  ghost function Counted(v: nat): bv8
    requires v < 256
  {
    if v == 0 then 0 else Counted(v - 1) + 1
  }

  lemma OneMore(b: bv8)
    requires b != 255
    ensures (b + 1) as nat == b as nat + 1
  {
  }

  lemma Back(b: bv8)
    ensures (b as nat) as bv8 == b
  {
  }

  lemma {:induction false} CountedNat(v: nat)
    requires v < 256
    ensures Counted(v) as nat == v
  {
    if v > 0 {
      CountedNat(v - 1);
      OneMore(Counted(v - 1));
    }
  }

  lemma SmallNat(v: nat)
    requires v < 256
    ensures (v as bv8) as nat == v
  {
    CountedNat(v);
    Back(Counted(v));
    hide Counted;
  }
}
