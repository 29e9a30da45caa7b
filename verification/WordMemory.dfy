/** Word-addressed memory: consecutive words stored and found again. */
module WordMemory {
  function Stored<T>(mem: map<int, T>, address: int, words: seq<T>): map<int, T>
    decreases words
  {
    if words == [] then mem else Stored(mem[address := words[0]], address + 4, words[1..])
  }

  ghost predicate InMemory<T>(mem: map<int, T>, address: int, words: seq<T>) {
    forall i :: 0 <= i < |words| ==> address + 4 * i in mem && mem[address + 4 * i] == words[i]
  }

  /** An address that is none of those stored to keeps its word. */
  lemma {:induction false} StoredElsewhere<T>(mem: map<int, T>, address: int, words: seq<T>, a: int)
    requires a < address || a >= address + 4 * |words|
    ensures a in Stored(mem, address, words) <==> a in mem
    ensures a in mem ==> Stored(mem, address, words)[a] == mem[a]
    decreases words
  {
    if words != [] {
      StoredElsewhere(mem[address := words[0]], address + 4, words[1..], a);
    }
  }

  lemma {:induction false} StoredHolds<T>(mem: map<int, T>, address: int, words: seq<T>)
    ensures InMemory(Stored(mem, address, words), address, words)
    decreases words
  {
    if words != [] {
      var mem' := mem[address := words[0]];
      StoredHolds(mem', address + 4, words[1..]);
      StoredElsewhere(mem', address + 4, words[1..], address);
      forall i | 0 < i < |words|
        ensures address + 4 * i in Stored(mem, address, words)
                && Stored(mem, address, words)[address + 4 * i] == words[i]
      {
        assert words[1..][i - 1] == words[i];
        assert address + 4 + 4 * (i - 1) == address + 4 * i;
      }
    }
  }
}
