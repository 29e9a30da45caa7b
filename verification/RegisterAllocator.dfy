/** The register allocator: names get registers from a pool of eight and keep them. */
module RegisterAllocation {
  import opened Words

  type Reg = r: nat | r < 16

  /** r4 to r11. */
  const POOL: set<Reg> := {4, 5, 6, 7, 8, 9, 10, 11}

  type Assignment = map<string, Reg>

  /** The register code uses for a name; names left without one all use r4. */
  function RegOf(m: Assignment, x: string): Reg {
    if x in m then m[x] else 4
  }

  ghost predicate Injective(m: Assignment) {
    forall x, y :: x in m && y in m && m[x] == m[y] ==> x == y
  }

  ghost predicate Extends(m: Assignment, m': Assignment) {
    forall x :: x in m ==> x in m' && m'[x] == m[x]
  }

  lemma PoolSize()
    ensures |POOL| == 8
  {
    assert POOL == {4, 5, 6, 7, 8, 9, 10} + {11};
    assert |{4, 5, 6, 7, 8, 9, 10}| == 7;
  }

  /** An injective map has as many values as keys. */
  lemma {:induction false} InjectiveSize(m: Assignment)
    requires Injective(m)
    ensures |m.Values| == |m.Keys|
    decreases |m|
  {
    if m.Keys == {} {
      assert m.Values == {};
    } else {
      var x :| x in m;
      var rest := map y | y in m && y != x :: m[y];
      assert rest.Keys == m.Keys - {x};
      assert rest.Values == m.Values - {m[x]} by {
        forall r | r in m.Values - {m[x]}
          ensures r in rest.Values
        {
          var y :| y in m && m[y] == r;
          assert y in rest && rest[y] == r;
        }
      }
      InjectiveSize(rest);
    }
  }

  /** The pool is split between the free registers and those in use, each by one name. */
  ghost predicate Consistent(free: set<Reg>, m: Assignment) {
    Injective(m) && free !! m.Values && free + m.Values == POOL
  }

  /** At most eight names: a name that still lacks a register finds one free. */
  lemma RoomForEight(free: set<Reg>, m: Assignment, names: set<string>, x: string)
    requires Consistent(free, m) && m.Keys <= names && |names| <= 8 && x in names && x !in m
    ensures free != {}
  {
    InjectiveSize(m);
    PoolSize();
    SubsetSize(m.Keys + {x}, names);
    assert free == {} ==> m.Values == POOL;
  }

  lemma {:induction false} SubsetSize<T>(a: set<T>, b: set<T>)
    requires a <= b
    ensures |a| <= |b|
  {
    if a != {} {
      var x :| x in a;
      SubsetSize(a - {x}, b - {x});
    }
  }

  /** The free registers and the registers of names. */
  datatype Holding = Holding(free: set<Reg>, regs: Assignment)

  /** `x` has the register it will keep: its own, or r4 for good. */
  predicate Settled(h: Holding, x: string) {
    x in h.regs || h.free == {}
  }

  /** From `a` to `b`: registers are kept, only `names` gained one, and all of them are settled. */
  ghost predicate Kept(a: Holding, b: Holding, names: set<string>) {
    && Extends(a.regs, b.regs) && b.regs.Keys <= a.regs.Keys + names
    && (a.free == {} ==> b == a)
    && (forall x :: x in names ==> Settled(b, x))
  }

  lemma KeptTwice(a: Holding, b: Holding, c: Holding, xs: set<string>, ys: set<string>)
    requires Kept(a, b, xs) && Kept(b, c, ys)
    ensures Kept(a, c, xs + ys)
  {
  }

  /** A settled name keeps its register. */
  lemma SettledKeeps(a: Holding, b: Holding, names: set<string>, x: string)
    requires Kept(a, b, names) && Settled(a, x)
    ensures Settled(b, x) && RegOf(b.regs, x) == RegOf(a.regs, x)
  {
  }

  class RegisterAllocator {
    var freeRegisters: set<Reg>
    var registers: Assignment
    var spilled: map<string, nat>
    var usedRegisters: set<Reg>
    var stackOffset: nat

    ghost predicate Valid()
      reads this
    {
      Consistent(freeRegisters, registers)
    }

    function Held(): Holding
      reads this
    {
      Holding(freeRegisters, registers)
    }

    constructor ()
      ensures Valid() && registers == map[]
    {
      freeRegisters, registers, spilled, usedRegisters, stackOffset := POOL, map[], map[], {}, 0;
    }

    method Reset()
      modifies this
      ensures Valid() && registers == map[] && freeRegisters == POOL && spilled == map[] && stackOffset == 0
    {
      freeRegisters, registers, spilled, usedRegisters, stackOffset := POOL, map[], map[], {}, 0;
    }

    /** Whatever free register is picked, the name keeps it; without one the name is spilled. */
    method Allocate(name: string) returns (r: Reg)
      requires Valid()
      modifies this
      ensures Valid() && r == RegOf(registers, name) && Kept(old(Held()), Held(), {name})
      ensures name in old(registers) || old(freeRegisters) == {} ==>
                registers == old(registers) && freeRegisters == old(freeRegisters)
      ensures name !in old(registers) && old(freeRegisters) == {} ==>
                stackOffset == old(stackOffset) + 4 && spilled == old(spilled)[name := stackOffset]
      ensures name in old(registers) || old(freeRegisters) != {} ==>
                name in registers && stackOffset == old(stackOffset) && spilled == old(spilled)
    {
      if name in registers {
        return registers[name];
      }
      if freeRegisters != {} {
        r :| r in freeRegisters;
        assert (freeRegisters - {r}) + (registers.Values + {r}) == POOL;
        assert registers[name := r].Values == registers.Values + {r} by {
          forall q | q in registers.Values
            ensures q in registers[name := r].Values
          {
            var x :| x in registers && registers[x] == q;
            assert registers[name := r][x] == q;
          }
          assert registers[name := r][name] == r;
        }
        freeRegisters := freeRegisters - {r};
        registers := registers[name := r];
        usedRegisters := usedRegisters + {r};
        return r;
      }
      stackOffset := stackOffset + 4;
      spilled := spilled[name := stackOffset];
      return 4;
    }

    /** Gives the register of a name back to the pool. */
    method Free(name: string)
      requires Valid()
      modifies this
      ensures Valid() && registers == old(registers) - {name}
      ensures name in old(registers) ==> freeRegisters == old(freeRegisters) + {old(registers)[name]}
      ensures name !in old(registers) ==> freeRegisters == old(freeRegisters)
    {
      if name in registers {
        var r := registers[name];
        ghost var before := registers;
        registers := registers - {name};
        freeRegisters := freeRegisters + {r};
        assert registers.Values == before.Values - {r} by {
          forall q | q in before.Values && q != r
            ensures q in registers.Values
          {
            var x :| x in before && before[x] == q;
            assert x in registers && registers[x] == q;
          }
        }
      }
    }

    /** The register of a name: one of the pool, in use, and nobody else's. Names without one, spilled
        ones among them, get none. */
    method GetRegister(name: string) returns (r: Option<Reg>)
      requires Valid()
      ensures r.Some? <==> name in registers
      ensures r.Some? ==> r.value == RegOf(registers, name) && r.value in POOL && r.value !in freeRegisters
      ensures r.Some? ==> forall x :: x in registers && RegOf(registers, x) == r.value ==> x == name
    {
      return if name in registers then Some(registers[name]) else None;
    }
  }
}
