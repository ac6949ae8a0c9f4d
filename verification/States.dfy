/** Sets of machine states in their two forms: the bits of one word, for strips of at most 64
    operators, and an array with one cell per state. The machine is written once against the
    operations below (src/missing/regexec.c). */
module States {
  import opened Bits

  class StateSet {
    const n: nat
    const small: bool
    var mask: Bits
    const cells: array<bool>

    ghost predicate Valid()
      reads this, cells
    {
      if small then n <= 64 && forall q: nat :: n <= q < 64 ==> !Has(mask, q)
      else cells.Length == n
    }

    /** The states in the set. */
    ghost function View(): set<nat>
      requires Valid()
      reads this, cells
    {
      if small then set q: nat | q < n && Has(mask, q)
      else set q: nat | q < n && cells[q]
    }

    /** SETUP */
    constructor (n: nat, small: bool)
      requires small ==> n <= 64
      ensures Valid() && this.n == n && this.small == small && View() == {}
      ensures fresh(cells)
    {
      this.n := n;
      this.small := small;
      mask := 0;
      cells := new bool[if small then 0 else n](_ => false);
      new;
      forall q: nat ensures !Has(mask, q) { NoBits(q); }
    }

    method Clear()
      requires Valid()
      modifies this`mask, cells
      ensures Valid() && View() == {}
    {
      if small {
        mask := 0;
        forall q: nat ensures !Has(mask, q) { NoBits(q); }
      } else {
        forall q | 0 <= q < n { cells[q] := false; }
      }
    }

    method Set1(q: nat)
      requires Valid() && q < n
      modifies this`mask, cells
      ensures Valid() && View() == old(View()) + {q}
    {
      if small {
        forall p: nat | p < 64 ensures Has(Or(mask, Bit(q)), p) <==> Has(mask, p) || p == q { OrBit(mask, q, p); }
        mask := Or(mask, Bit(q));
      } else {
        cells[q] := true;
      }
    }

    method IsSet(q: nat) returns (r: bool)
      requires Valid() && q < n
      ensures r <==> q in View()
    {
      r := if small then Has(mask, q) else cells[q];
    }

    method Assign(src: StateSet)
      requires Valid() && src.Valid() && src.n == n && src.small == small
      requires src.cells != cells
      modifies this`mask, cells
      ensures Valid() && View() == old(src.View())
    {
      if small {
        mask := src.mask;
      } else {
        forall q | 0 <= q < n { cells[q] := src.cells[q]; }
      }
    }

    method Eq(other: StateSet) returns (r: bool)
      requires Valid() && other.Valid() && other.n == n && other.small == small
      ensures r <==> View() == other.View()
    {
      if small {
        r := mask == other.mask;
        if View() == other.View() {
          forall q: nat | q < 64 ensures Has(mask, q) <==> Has(other.mask, q) {
            assert q in View() <==> q in other.View();
          }
          SameBits(mask, other.mask);
        }
      } else {
        r := forall q | 0 <= q < n :: cells[q] == other.cells[q];
        if !r {
          var q :| 0 <= q < n && cells[q] != other.cells[q];
          assert (q in View()) != (q in other.View());
        }
      }
    }

    /** FWD: being at here means one can also be k places further. */
    method Fwd(src: StateSet, here: nat, k: nat)
      requires Valid() && src.Valid() && src.n == n && src.small == small
      requires here + k < n
      modifies this`mask, cells
      ensures Valid() && View() == old(View()) + (if here in old(src.View()) then {here + k} else {})
    {
      if small {
        MaskBit(src.mask, here);
        ShlBit(here, k);
        ShiftZero(k);
        Join(Shl(And(src.mask, Bit(here)), k), here + k, Has(src.mask, here));
      } else {
        cells[here + k] := cells[here + k] || src.cells[here];
      }
    }

    /** BACK: the same, k places back. */
    method Back(src: StateSet, here: nat, k: nat)
      requires Valid() && src.Valid() && src.n == n && src.small == small
      requires k <= here < n
      modifies this`mask, cells
      ensures Valid() && View() == old(View()) + (if here in old(src.View()) then {here - k} else {})
    {
      if small {
        MaskBit(src.mask, here);
        ShrBit(here - k, k);
        ShiftZero(k);
        Join(Shr(And(src.mask, Bit(here)), k), here - k, Has(src.mask, here));
      } else {
        cells[here - k] := cells[here - k] || src.cells[here];
      }
    }

    /** Or a shifted mask of at most one bit into the set. */
    method Join(x: Bits, q: nat, present: bool)
      requires Valid() && small && q < n
      requires x == if present then Bit(q) else 0
      modifies this`mask
      ensures Valid() && View() == old(View()) + (if present then {q} else {})
    {
      AndSelf(mask);
      forall p: nat | p < 64 ensures Has(Or(mask, Bit(q)), p) <==> Has(mask, p) || p == q { OrBit(mask, q, p); }
      mask := Or(mask, x);
    }
  }
}
