/** The first-level page table. */
module Mmu {
  // What the boot code builds, what is left after the identity mapping is removed, and what every
  // address then means.

  import opened Words
  import opened Arithmetic

  const MMU_L1_ENTRIES: nat := 4096
  const MMU_SECTION_SIZE: nat := 0x100000

  const PERIPH_L4_WKUP_PA: nat := 0x44E00000
  const PERIPH_L4_WKUP_SECTIONS: nat := 1
  const PERIPH_L4_PER_PA: nat := 0x48000000
  const PERIPH_L4_PER_SECTIONS: nat := 3
  const KERNEL_DDR_PA: nat := 0x80000000
  const KERNEL_DDR_VA: nat := 0xC0000000
  const KERNEL_DDR_MB: nat := 5
  const USER_SPACE_PA: nat := 0x80500000
  const USER_SPACE_VA: nat := 0x40000000
  const USER_SPACE_MB: nat := 1
  const BOOT_IDENTITY_PA: nat := 0x80000000
  const BOOT_IDENTITY_MB: nat := 128

  /** An attribute word, from the bit fields of the descriptor. */
  function Attributes(ap: nat, domain: nat, tex: nat, cb: nat, shareable: nat, xn: nat): nat {
    2 + ap * 0x400 + domain * 0x20 + tex * 0x1000 + cb * 4 + shareable * 0x10000 + xn * 0x10
  }

  /** Section, kernel read-write, domain 0, strongly ordered, never executed. */
  const MMU_SECT_PERIPHERAL: nat := Attributes(1, 0, 0, 0, 0, 1)

  /** Section, kernel read-write, domain 0, normal cached shareable memory. */
  const MMU_SECT_KERNEL_RAM: nat := Attributes(1, 0, 1, 3, 1, 0)

  /** Section, read-write for all, domain 1, normal cached shareable memory. */
  const MMU_SECT_USER_RAM: nat := Attributes(3, 1, 1, 3, 1, 0)

  /** Domains 0 and 1 are clients. */
  const MMU_DACR_VALUE: nat := 0x5

  // ------------------------------------------------------------------ the table

  /** pa | attributes: the attributes fit below a section's base. */
  function Descriptor(section: nat, attributes: nat): nat {
    Bits(Or, section * MMU_SECTION_SIZE, attributes)
  }

  lemma DescriptorAdds(section: nat, attributes: nat)
    requires attributes < MMU_SECTION_SIZE
    ensures Descriptor(section, attributes) == section * MMU_SECTION_SIZE + attributes
  {
    Pow2Adds(10, 10);
    assert Pow2(10) == 1024;
    assert Pow2(20) == MMU_SECTION_SIZE;
    OrOfDisjoint(section, attributes, 20);
  }

  /** A run of sections mapped one after the other. */
  datatype Range = Range(va: nat, pa: nat, count: nat, attributes: nat)

  predicate InRange(r: Range, i: nat) {
    r.va / MMU_SECTION_SIZE <= i < r.va / MMU_SECTION_SIZE + r.count
  }

  function EntryIn(r: Range, i: nat): nat
    requires InRange(r, i)
  {
    Descriptor(r.pa / MMU_SECTION_SIZE + (i - r.va / MMU_SECTION_SIZE), r.attributes)
  }

  const WKUP: Range := Range(PERIPH_L4_WKUP_PA, PERIPH_L4_WKUP_PA, PERIPH_L4_WKUP_SECTIONS, MMU_SECT_PERIPHERAL)
  const PER: Range := Range(PERIPH_L4_PER_PA, PERIPH_L4_PER_PA, PERIPH_L4_PER_SECTIONS, MMU_SECT_PERIPHERAL)
  const USER: Range := Range(USER_SPACE_VA, USER_SPACE_PA, USER_SPACE_MB, MMU_SECT_USER_RAM)
  const KERNEL: Range := Range(KERNEL_DDR_VA, KERNEL_DDR_PA, KERNEL_DDR_MB, MMU_SECT_KERNEL_RAM)
  const IDENTITY: Range := Range(BOOT_IDENTITY_PA, BOOT_IDENTITY_PA, BOOT_IDENTITY_MB, MMU_SECT_KERNEL_RAM)

  /** The entry of a list of ranges at an index; a fault where there is none. */
  function EntryAt(rs: seq<Range>, i: nat): nat {
    if rs == [] then 0 else if InRange(rs[|rs| - 1], i) then EntryIn(rs[|rs| - 1], i) else EntryAt(rs[..|rs| - 1], i)
  }

  const FINAL: seq<Range> := [WKUP, PER, USER, KERNEL]
  const BOOT: seq<Range> := [WKUP, PER, USER, KERNEL, IDENTITY]

  ghost predicate IsTable(pgd: seq<nat>, rs: seq<Range>) {
    |pgd| == MMU_L1_ENTRIES && forall i :: 0 <= i < MMU_L1_ENTRIES ==> pgd[i] == EntryAt(rs, i)
  }

  /** One of the mapping loops. */
  method MapRange(pgd: array<nat>, r: Range, ghost rs: seq<Range>)
    requires IsTable(pgd[..], rs) && r.va / MMU_SECTION_SIZE + r.count <= MMU_L1_ENTRIES
    requires r.va % MMU_SECTION_SIZE == 0 && r.pa % MMU_SECTION_SIZE == 0
    modifies pgd
    ensures IsTable(pgd[..], rs + [r])
  {
    hide Descriptor;
    assert (rs + [r])[..|rs|] == rs;
    for i := 0 to r.count
      invariant forall k :: 0 <= k < MMU_L1_ENTRIES ==>
                              pgd[k] == if InRange(r.(count := i), k) then EntryIn(r.(count := i), k)
                                        else EntryAt(rs, k)
    {
      var pa := r.pa + i * MMU_SECTION_SIZE;
      var index := (r.va + i * MMU_SECTION_SIZE) / MMU_SECTION_SIZE;
      assert index == r.va / MMU_SECTION_SIZE + i && pa / MMU_SECTION_SIZE == r.pa / MMU_SECTION_SIZE + i;
      pgd[index] := Descriptor(pa / MMU_SECTION_SIZE, r.attributes);
    }
  }

  /** mmu_build_page_table_boot. */
  method BuildPageTable(pgd: array<nat>)
    requires pgd.Length == MMU_L1_ENTRIES
    modifies pgd
    ensures IsTable(pgd[..], BOOT)
  {
    for i := 0 to MMU_L1_ENTRIES
      invariant forall k :: 0 <= k < i ==> pgd[k] == 0
    {
      pgd[i] := 0;
    }
    assert IsTable(pgd[..], []);
    hide IsTable, EntryAt;
    MapRange(pgd, WKUP, []);
    MapRange(pgd, PER, [] + [WKUP]);
    MapRange(pgd, USER, [] + [WKUP] + [PER]);
    MapRange(pgd, KERNEL, [] + [WKUP] + [PER] + [USER]);
    MapRange(pgd, IDENTITY, [] + [WKUP] + [PER] + [USER] + [KERNEL]);
    assert [] + [WKUP] + [PER] + [USER] + [KERNEL] + [IDENTITY] == BOOT;
  }

  /** The loop of mmu_init that removes the identity mapping. */
  method RemoveIdentity(pgd: array<nat>)
    requires IsTable(pgd[..], BOOT)
    modifies pgd
    ensures IsTable(pgd[..], FINAL)
  {
    hide EntryIn;
    assert BOOT[..4] == FINAL;
    for i := 0 to BOOT_IDENTITY_MB
      invariant pgd.Length == MMU_L1_ENTRIES
      invariant forall k :: 0 <= k < MMU_L1_ENTRIES ==>
                              pgd[k] == if InRange(IDENTITY.(count := i), k) then 0 else EntryAt(BOOT, k)
    {
      var pa := BOOT_IDENTITY_PA + i * MMU_SECTION_SIZE;
      assert pa / MMU_SECTION_SIZE == 0x800 + i;
      pgd[pa / MMU_SECTION_SIZE] := 0;
    }
    forall k | 0 <= k < MMU_L1_ENTRIES
      ensures pgd[k] == EntryAt(FINAL, k)
    {
      IdentityApart(k);
    }
    assert forall k :: 0 <= k < MMU_L1_ENTRIES ==> pgd[..][k] == EntryAt(FINAL, k);
  }

  lemma IdentityApart(k: nat)
    ensures InRange(IDENTITY, k) ==> EntryAt(FINAL, k) == 0
    ensures !InRange(IDENTITY, k) ==> EntryAt(FINAL, k) == EntryAt(BOOT, k)
  {
    hide EntryIn;
    EntrySnoc(FINAL, IDENTITY, k);
    assert FINAL + [IDENTITY] == BOOT;
    FinalEntry(k);
    hide EntryAt;
  }

  lemma EntrySnoc(rs: seq<Range>, r: Range, i: nat)
    ensures EntryAt(rs + [r], i) == if InRange(r, i) then EntryIn(r, i) else EntryAt(rs, i)
  {
    assert (rs + [r])[..|rs|] == rs;
  }

  // ------------------------------------------------------------------ the walk

  /** A section descriptor: bits 1 and 0 are 10 and bit 18 is clear. */
  predicate IsSection(d: nat) {
    d % 4 == 2 && d / 0x40000 % 2 == 0
  }

  function DomainField(d: nat): nat {
    d / 0x20 % 16
  }

  function DomainAccess(d: nat): nat {
    MMU_DACR_VALUE / Pow2(2 * DomainField(d)) % 4
  }

  /** AP[2], AP[1:0]. */
  function Permissions(d: nat): nat {
    d / 0x8000 % 2 * 4 + d / 0x400 % 4
  }

  datatype Access = Read | Write | Fetch

  /** May the access be made, with these permissions? */
  predicate Permits(ap: nat, user: bool, access: Access) {
    match ap
    case 1 => !user
    case 2 => !user || access != Write
    case 3 => true
    case 5 => !user && access != Write
    case 6 => access != Write
    case 7 => access != Write
    case _ => false
  }

  /** Bit 4: no instruction is ever fetched from the section. */
  predicate NeverExecuted(d: nat) {
    d / 0x10 % 2 == 1
  }

  datatype Policy = WriteThrough | WriteBack | NonCacheable | WriteBackAllocate

  datatype Memory = StronglyOrdered | Device | Normal(policy: Policy, shareable: bool) | OtherMemory

  /** TEX, C and B. */
  function TypeField(d: nat): nat {
    d / 0x1000 % 8 * 4 + d / 4 % 4
  }

  predicate Shareable(d: nat) {
    d / 0x10000 % 2 == 1
  }

  /** The kind of memory, without TEX remap (ARM DDI 0406C, section B3.8.2). */
  function MemoryOf(field: nat, shareable: bool): Memory {
    match field
    case 0 => StronglyOrdered
    case 1 => Device
    case 2 => Normal(WriteThrough, shareable)
    case 3 => Normal(WriteBack, shareable)
    case 4 => Normal(NonCacheable, shareable)
    case 7 => Normal(WriteBackAllocate, shareable)
    case _ => OtherMemory
  }

  /** Where an access arrives and how that memory is to be treated. */
  datatype Target = Target(pa: nat, memory: Memory)

  /** The translation of the architecture (ARM DDI 0406C, section B3.5.1) for tables of sections:
      an address with its kind of memory, or a fault. */
  function Walk(pgd: seq<nat>, va: u32, user: bool, access: Access): Option<Target>
    requires |pgd| == MMU_L1_ENTRIES
  {
    Translated(pgd[va / MMU_SECTION_SIZE], va, user, access)
  }

  /** Through descriptor `d`. */
  function Translated(d: nat, va: u32, user: bool, access: Access): Option<Target> {
    if !IsSection(d) || (access == Fetch && NeverExecuted(d)) then None
    else if DomainAccess(d) == 3 || (DomainAccess(d) == 1 && Permits(Permissions(d), user, access)) then
      Some(Target(d / MMU_SECTION_SIZE * MMU_SECTION_SIZE + va % MMU_SECTION_SIZE,
                  MemoryOf(TypeField(d), Shareable(d))))
    else None
  }

  /** A field of a descriptor below its base is that of its attributes: `k` is the field's lowest
      bit and `n` its number of values. */
  lemma Field(section: nat, a: nat, k: nat, n: nat, t: nat)
    requires k > 0 && n > 0 && k * (n * t) == MMU_SECTION_SIZE
    ensures (section * MMU_SECTION_SIZE + a) / k % n == a / k % n
  {
    var d := section * MMU_SECTION_SIZE + a;
    var (q, r) := (a / k, a % k);
    assert a == k * q + r;
    Regroup(section, k, n * t);
    assert section * MMU_SECTION_SIZE == (section * k) * (n * t);
    Regroup(k, section, n * t);
    assert section * k == k * section;
    Spread(k, section * (n * t), q);
    Quotient(d, k, section * (n * t) + q, r);
    assert q == n * (q / n) + q % n;
    Regroup(section, n, t);
    Regroup(n, section, t);
    assert section * n == n * section;
    Spread(n, section * t, q / n);
    Quotient(section * (n * t) + q, n, section * t + q / n, q % n);
  }

  /** What a section with one of the three attribute words means. */
  lemma SectionMeans(section: nat, attributes: nat)
    requires attributes == MMU_SECT_PERIPHERAL || attributes == MMU_SECT_KERNEL_RAM || attributes == MMU_SECT_USER_RAM
    ensures var d := Descriptor(section, attributes);
            && IsSection(d) && DomainAccess(d) == 1 && d / MMU_SECTION_SIZE == section
            && Permissions(d) == (if attributes == MMU_SECT_USER_RAM then 3 else 1)
            && (NeverExecuted(d) <==> attributes == MMU_SECT_PERIPHERAL)
            && MemoryOf(TypeField(d), Shareable(d))
               == (if attributes == MMU_SECT_PERIPHERAL then StronglyOrdered else Normal(WriteBackAllocate, true))
  {
    DescriptorAdds(section, attributes);
    hide Descriptor;
    Field(section, attributes, 1, 4, 0x40000);
    Field(section, attributes, 0x40000, 2, 2);
    Field(section, attributes, 0x20, 16, 0x800);
    Field(section, attributes, 0x8000, 2, 0x10);
    Field(section, attributes, 0x400, 4, 0x100);
    Field(section, attributes, 0x10, 2, 0x8000);
    Field(section, attributes, 0x1000, 8, 0x20);
    Field(section, attributes, 4, 4, 0x10000);
    Field(section, attributes, 0x10000, 2, 8);
    Quotient(section * MMU_SECTION_SIZE + attributes, MMU_SECTION_SIZE, section, attributes);
    FieldValues(attributes);
    FieldsMean(Descriptor(section, attributes), attributes == MMU_SECT_USER_RAM);
    TypeMeans(Descriptor(section, attributes), attributes == MMU_SECT_PERIPHERAL);
    hide IsSection, DomainAccess, Permissions, NeverExecuted, MemoryOf, TypeField, Shareable;
  }

  /** The fields of the three attribute words. */
  lemma FieldValues(a: nat)
    requires a == MMU_SECT_PERIPHERAL || a == MMU_SECT_KERNEL_RAM || a == MMU_SECT_USER_RAM
    ensures a % 4 == 2 && a / 0x40000 % 2 == 0 && a / 0x8000 % 2 == 0
    ensures a / 0x20 % 16 == (if a == MMU_SECT_USER_RAM then 1 else 0)
    ensures a / 0x400 % 4 == (if a == MMU_SECT_USER_RAM then 3 else 1)
    ensures a / 0x10 % 2 == (if a == MMU_SECT_PERIPHERAL then 1 else 0)
    ensures a / 0x1000 % 8 == a / 0x10000 % 2 == (if a == MMU_SECT_PERIPHERAL then 0 else 1)
    ensures a / 4 % 4 == (if a == MMU_SECT_PERIPHERAL then 0 else 3)
  {
  }

  lemma FieldsMean(d: nat, user: bool)
    requires d % 4 == 2 && d / 0x40000 % 2 == 0 && d / 0x8000 % 2 == 0
    requires d / 0x20 % 16 == (if user then 1 else 0) && d / 0x400 % 4 == (if user then 3 else 1)
    ensures IsSection(d) && DomainAccess(d) == 1 && Permissions(d) == (if user then 3 else 1)
  {
    assert Pow2(0) == 1 && Pow2(2) == 4;
    assert DomainField(d) == if user then 1 else 0;
  }

  lemma TypeMeans(d: nat, peripheral: bool)
    requires d / 0x10 % 2 == (if peripheral then 1 else 0)
    requires d / 0x1000 % 8 == d / 0x10000 % 2 == (if peripheral then 0 else 1)
    requires d / 4 % 4 == (if peripheral then 0 else 3)
    ensures NeverExecuted(d) <==> peripheral
    ensures MemoryOf(TypeField(d), Shareable(d))
            == if peripheral then StronglyOrdered else Normal(WriteBackAllocate, true)
  {
    assert TypeField(d) == if peripheral then 0 else 7;
  }

  // ------------------------------------------------------------------ what the addresses mean

  predicate Within(va: nat, start: nat, mb: nat) {
    start <= va < start + mb * MMU_SECTION_SIZE
  }

  /** Ordinary memory: cached with write-back and write-allocate, shareable. */
  const RAM: Memory := Normal(WriteBackAllocate, true)

  /** The memory map once the kernel runs: user memory for everyone, kernel memory and peripherals
      for the kernel, faults everywhere else. Nothing is fetched from a peripheral. */
  function Declared(va: nat, user: bool, access: Access): Option<Target> {
    if Within(va, USER_SPACE_VA, USER_SPACE_MB) then Some(Target(va - USER_SPACE_VA + USER_SPACE_PA, RAM))
    else if user then None
    else if Within(va, KERNEL_DDR_VA, KERNEL_DDR_MB) then Some(Target(va - KERNEL_DDR_VA + KERNEL_DDR_PA, RAM))
    else if Within(va, PERIPH_L4_WKUP_PA, PERIPH_L4_WKUP_SECTIONS)
            || Within(va, PERIPH_L4_PER_PA, PERIPH_L4_PER_SECTIONS)
    then if access == Fetch then None else Some(Target(va, StronglyOrdered))
    else None
  }

  /** The map before the identity mapping is removed. */
  function DeclaredAtBoot(va: nat, user: bool, access: Access): Option<Target> {
    if !user && Within(va, BOOT_IDENTITY_PA, BOOT_IDENTITY_MB) then Some(Target(va, RAM))
    else Declared(va, user, access)
  }

  lemma EntryMeans(r: Range, va: nat, user: bool)
    requires InRange(r, va / MMU_SECTION_SIZE) && r.va % MMU_SECTION_SIZE == 0 && r.pa % MMU_SECTION_SIZE == 0
    requires r.attributes in {MMU_SECT_PERIPHERAL, MMU_SECT_KERNEL_RAM, MMU_SECT_USER_RAM}
    ensures var d := EntryIn(r, va / MMU_SECTION_SIZE);
            && IsSection(d) && DomainAccess(d) == 1
            && Permissions(d) == (if r.attributes == MMU_SECT_USER_RAM then 3 else 1)
            && (NeverExecuted(d) <==> r.attributes == MMU_SECT_PERIPHERAL)
            && MemoryOf(TypeField(d), Shareable(d))
               == (if r.attributes == MMU_SECT_PERIPHERAL then StronglyOrdered else RAM)
            && va >= r.va && d / MMU_SECTION_SIZE * MMU_SECTION_SIZE + va % MMU_SECTION_SIZE == va - r.va + r.pa
  {
    hide MemoryOf, TypeField, Shareable, NeverExecuted;
    SectionMeans(r.pa / MMU_SECTION_SIZE + (va / MMU_SECTION_SIZE - r.va / MMU_SECTION_SIZE), r.attributes);
    hide Descriptor, IsSection, DomainAccess, Permissions, NeverExecuted, MemoryOf, TypeField, Shareable;
  }

  /** What an access to an address of a range gives. */
  function Given(r: Range, va: nat, user: bool, access: Access): Option<Target>
    requires va + r.pa >= r.va
  {
    var at := va - r.va + r.pa;
    if r.attributes == MMU_SECT_USER_RAM then Some(Target(at, RAM))
    else if user then None
    else if r.attributes == MMU_SECT_KERNEL_RAM then Some(Target(at, RAM))
    else if access == Fetch then None
    else Some(Target(at, StronglyOrdered))
  }

  lemma WalkGives(pgd: seq<nat>, r: Range, va: u32, user: bool, access: Access)
    requires |pgd| == MMU_L1_ENTRIES && InRange(r, va / MMU_SECTION_SIZE)
    requires pgd[va / MMU_SECTION_SIZE] == EntryIn(r, va / MMU_SECTION_SIZE)
    requires r.va % MMU_SECTION_SIZE == 0 && r.pa % MMU_SECTION_SIZE == 0
    requires r.attributes in {MMU_SECT_PERIPHERAL, MMU_SECT_KERNEL_RAM, MMU_SECT_USER_RAM}
    ensures va >= r.va && Walk(pgd, va, user, access) == Given(r, va, user, access)
  {
    EntryMeans(r, va, user);
    DescriptorGives(EntryIn(r, va / MMU_SECTION_SIZE), r, va, user, access);
    hide EntryIn, InRange, Translated, Given, IsSection, DomainAccess, Permissions, NeverExecuted, MemoryOf, TypeField,
         Shareable;
  }

  lemma DescriptorGives(d: nat, r: Range, va: u32, user: bool, access: Access)
    requires IsSection(d) && DomainAccess(d) == 1
    requires r.attributes in {MMU_SECT_PERIPHERAL, MMU_SECT_KERNEL_RAM, MMU_SECT_USER_RAM}
    requires Permissions(d) == (if r.attributes == MMU_SECT_USER_RAM then 3 else 1)
    requires NeverExecuted(d) <==> r.attributes == MMU_SECT_PERIPHERAL
    requires MemoryOf(TypeField(d), Shareable(d))
             == (if r.attributes == MMU_SECT_PERIPHERAL then StronglyOrdered else RAM)
    requires va >= r.va && d / MMU_SECTION_SIZE * MMU_SECTION_SIZE + va % MMU_SECTION_SIZE == va - r.va + r.pa
    ensures Translated(d, va, user, access) == Given(r, va, user, access)
  {
    hide IsSection, DomainAccess, Permissions, NeverExecuted, MemoryOf, TypeField, Shareable;
  }

  lemma RangeIs(r: Range, va: nat)
    requires r.va % MMU_SECTION_SIZE == 0
    ensures InRange(r, va / MMU_SECTION_SIZE) <==> Within(va, r.va, r.count)
  {
  }

  /** After the identity mapping is gone, every address means exactly what is declared, in both
      modes, for reads, writes and instruction fetches: RAM is cached and can be executed,
      peripherals are strongly ordered and never executed. */
  lemma FinalMeans(pgd: seq<nat>, va: u32, user: bool, access: Access)
    requires IsTable(pgd, FINAL)
    ensures Walk(pgd, va, user, access) == Declared(va, user, access)
  {
    hide Walk, EntryIn, InRange, EntryAt;
    var i := va / MMU_SECTION_SIZE;
    RangeIs(WKUP, va);
    RangeIs(PER, va);
    RangeIs(USER, va);
    RangeIs(KERNEL, va);
    FinalEntry(i);
    if InRange(KERNEL, i) {
      WalkGives(pgd, KERNEL, va, user, access);
    } else if InRange(USER, i) {
      WalkGives(pgd, USER, va, user, access);
    } else if InRange(PER, i) {
      WalkGives(pgd, PER, va, user, access);
    } else if InRange(WKUP, i) {
      WalkGives(pgd, WKUP, va, user, access);
    } else {
      WalkFaults(pgd, va, user, access);
    }
  }

  lemma WalkFaults(pgd: seq<nat>, va: u32, user: bool, access: Access)
    requires |pgd| == MMU_L1_ENTRIES && pgd[va / MMU_SECTION_SIZE] == 0
    ensures Walk(pgd, va, user, access) == None
  {
  }

  lemma FinalEntry(i: nat)
    ensures EntryAt(FINAL, i) == if InRange(KERNEL, i) then EntryIn(KERNEL, i)
                                 else if InRange(USER, i) then EntryIn(USER, i)
                                 else if InRange(PER, i) then EntryIn(PER, i)
                                 else if InRange(WKUP, i) then EntryIn(WKUP, i)
                                 else 0
  {
    hide EntryIn, InRange;
    EntrySnoc([], WKUP, i);
    EntrySnoc([WKUP], PER, i);
    EntrySnoc([WKUP, PER], USER, i);
    EntrySnoc([WKUP, PER, USER], KERNEL, i);
    assert [] + [WKUP] == [WKUP] && [WKUP] + [PER] == [WKUP, PER] && [WKUP, PER] + [USER] == [WKUP, PER, USER]
        && [WKUP, PER, USER] + [KERNEL] == FINAL;
  }

  lemma BootMeans(pgd: seq<nat>, va: u32, user: bool, access: Access)
    requires IsTable(pgd, BOOT)
    ensures Walk(pgd, va, user, access) == DeclaredAtBoot(va, user, access)
  {
    var i := va / MMU_SECTION_SIZE;
    var final := seq(MMU_L1_ENTRIES, k requires 0 <= k < MMU_L1_ENTRIES => EntryAt(FINAL, k));
    FinalMeans(final, va, user, access);
    IdentityApart(i);
    RangeIs(IDENTITY, va);
    if InRange(IDENTITY, i) {
      BootEntry(i);
      WalkGives(pgd, IDENTITY, va, user, access);
      hide Walk, EntryIn, EntryAt;
    } else {
      WalkSame(pgd, final, va, user, access);
      hide Walk, EntryIn, EntryAt;
    }
  }

  lemma WalkSame(a: seq<nat>, b: seq<nat>, va: u32, user: bool, access: Access)
    requires |a| == |b| == MMU_L1_ENTRIES && a[va / MMU_SECTION_SIZE] == b[va / MMU_SECTION_SIZE]
    ensures Walk(a, va, user, access) == Walk(b, va, user, access)
  {
  }

  lemma BootEntry(i: nat)
    requires InRange(IDENTITY, i)
    ensures EntryAt(BOOT, i) == EntryIn(IDENTITY, i)
  {
  }

  /** User mode reaches only the user's megabyte, which is apart from the kernel's memory. */
  lemma UserReach(pgd: seq<nat>, va: u32, access: Access, other: u32, a: Access)
    requires IsTable(pgd, FINAL)
    requires Walk(pgd, va, true, access).Some?
    ensures Within(Walk(pgd, va, true, access).value.pa, USER_SPACE_PA, USER_SPACE_MB)
    ensures Within(other, KERNEL_DDR_VA, KERNEL_DDR_MB) ==>
              && Walk(pgd, other, false, a).Some?
              && Walk(pgd, other, false, a).value.pa != Walk(pgd, va, true, access).value.pa
  {
    hide Walk;
    FinalMeans(pgd, va, true, access);
    FinalMeans(pgd, other, false, a);
  }

  /** While both mappings exist, the kernel's high addresses and their identity addresses translate
      alike. */
  lemma HighAndIdentityAgree(pgd: seq<nat>, offset: u32, access: Access)
    requires IsTable(pgd, BOOT) && offset < KERNEL_DDR_MB * MMU_SECTION_SIZE
    ensures Walk(pgd, KERNEL_DDR_VA + offset, false, access) == Walk(pgd, BOOT_IDENTITY_PA + offset, false, access)
  {
    hide Walk;
    BootMeans(pgd, KERNEL_DDR_VA + offset, false, access);
    BootMeans(pgd, BOOT_IDENTITY_PA + offset, false, access);
  }
}
