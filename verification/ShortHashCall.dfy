/**
 * One call of cpm_get_shortest_hash from start to end, as the loop over prefix lengths in the source, and its
 * agreement with the interleaved steps when no other call gets in between.
 */
module ShortHashCall {
  import opened ShortHash

  class Cache {
    var files: map<string, string>
    var dirs: set<string>

    constructor (files: map<string, string>, dirs: set<string>)
      ensures this.files == files && this.dirs == dirs
    {
      this.files, this.dirs := files, dirs;
    }
  }

  /** Trying prefixes from a length on: the claim files afterwards, and the name the call ends with. */
  function Claim(files: map<string, string>, h: Hash, len: nat): (map<string, string>, string)
    requires IsLength(len)
    decreases FULL - len
  {
    var n := Prefix(h, len);
    var touched := if n in files then files else files[n := ""];
    if touched[n] == "" then (touched[n := h], n)
    else if touched[n] == h || len == FULL then (touched, n)
    else Claim(touched, h, len + 4)
  }

  method GetShortestHash(cache: Cache, h: Hash) returns (name: string)
    modifies cache
    ensures cache.dirs == old(cache.dirs)
    ensures (cache.files, name) == if h in cache.dirs then (old(cache.files), h) else Claim(old(cache.files), h, 4)
    ensures name <= h && (h in cache.dirs ==> name == h && cache.files == old(cache.files))
    ensures h !in cache.dirs ==> 4 <= |name| <= 40 && |name| % 4 == 0
    ensures h !in cache.dirs ==> forall j: nat :: 4 <= j < |name| && j % 4 == 0 ==> TakenBefore(old(cache.files), h[..j], h)
    ensures h !in cache.dirs ==>
              cache.files == if TakenBefore(old(cache.files), name, h) then old(cache.files) else old(cache.files)[name := h]
    ensures h !in cache.dirs && TakenBefore(old(cache.files), name, h) ==> name == h
  {
    ClaimIsShortest(cache.files, h);
    if h in cache.dirs {
      return h;
    }
    var len := 4;
    name := "";
    while len <= FULL
      invariant 4 <= len <= FULL + 4 && len % 4 == 0
      invariant cache.dirs == old(cache.dirs)
      invariant len <= FULL ==> Claim(cache.files, h, len) == Claim(old(cache.files), h, 4)
      invariant len > FULL ==> (cache.files, name) == Claim(old(cache.files), h, 4)
    {
      name := Prefix(h, len);
      if name !in cache.files {
        cache.files := cache.files[name := ""];
      }
      var contents := cache.files[name];
      if contents == "" {
        cache.files := cache.files[name := h];
        break;
      } else if contents == h {
        break;
      }
      len := len + 4;
    }
  }

  predicate IsFree(files: map<string, string>, n: string, h: Hash) {
    n !in files || files[n] == "" || files[n] == h
  }

  /**
   * The name is the shortest prefix no other hash has taken; its file then holds the hash, and no other file
   * changes. Only a hash whose every prefix is taken ends with its full self unclaimed.
   */
  lemma {:induction false} ClaimsShortestFree(files: map<string, string>, h: Hash, len: nat)
    requires IsLength(len)
    ensures var (after, name) := Claim(files, h, len);
            && IsLength(|name|) && len <= |name| && name == Prefix(h, |name|)
            && (forall j: nat :: IsLength(j) && len <= j < |name| ==> !IsFree(files, Prefix(h, j), h))
            && (if IsFree(files, name, h) then after == files[name := h] else after == files && name == h)
    decreases FULL - len
  {
    var n := Prefix(h, len);
    if !IsFree(files, n, h) && len < FULL {
      ClaimsShortestFree(files, h, len + 4);
      var name := Claim(files, h, len + 4).1;
      forall j: nat | IsLength(j) && len <= j < |name| ensures !IsFree(files, Prefix(h, j), h) {
        assert j == len || len + 4 <= j;
      }
    }
  }

  /** Asking again gets the same name and changes nothing. */
  lemma {:induction false} AskingAgain(files: map<string, string>, h: Hash, len: nat)
    requires IsLength(len)
    ensures var (after, name) := Claim(files, h, len); Claim(after, h, len) == (after, name)
    decreases FULL - len
  {
    hide Prefix;
    var n := Prefix(h, len);
    if n in files && files[n] != "" && files[n] != h && len < FULL {
      AskingAgain(files, h, len + 4);
      ClaimsShortestFree(files, h, len + 4);
      var (after, name) := Claim(files, h, len + 4);
      DifferentPrefixes(h, len, |name|);
      assert n in after && after[n] == files[n];
    }
  }

  lemma DifferentPrefixes(h: Hash, i: nat, j: nat)
    ensures IsLength(i) && IsLength(j) && i != j ==> Prefix(h, i) != Prefix(h, j)
  {
    if IsLength(i) && IsLength(j) {
      PrefixLength(h, i);
      PrefixLength(h, j);
    }
  }

  /** Some other content is in this claim file. */
  predicate TakenBefore(files: map<string, string>, n: string, h: Hash) {
    n in files && files[n] != "" && files[n] != h
  }

  lemma ClaimIsShortest(files: map<string, string>, h: Hash)
    ensures var (after, name) := Claim(files, h, 4);
            && name <= h && 4 <= |name| <= 40 && |name| % 4 == 0
            && (forall j: nat :: 4 <= j < |name| && j % 4 == 0 ==> TakenBefore(files, h[..j], h))
            && after == (if TakenBefore(files, name, h) then files else files[name := h])
            && (TakenBefore(files, name, h) ==> name == h)
  {
    hide Claim;
    ClaimsShortestFree(files, h, 4);
    var name := Claim(files, h, 4).1;
    forall j: nat | 4 <= j < |name| && j % 4 == 0 ensures TakenBefore(files, h[..j], h) {
      assert IsLength(j) && Prefix(h, j) == h[..j];
      assert !IsFree(files, Prefix(h, j), h);
    }
  }

  function Advances(who: nat, k: nat): seq<Step> {
    if k == 0 then [] else [Advance(who)] + Advances(who, k - 1)
  }

  lemma AdvanceOnce(s: State, who: nat, k: nat)
    requires who < |s.calls| && k > 0
    ensures Run(s, Advances(who, k)) == Run(Advanced(s, who), Advances(who, k - 1))
  {
    hide Advanced;
    assert Advances(who, k)[1..] == Advances(who, k - 1);
  }

  /** Locking, touching and reading a free-standing prefix. */
  lemma TriesPrefix(s: State, who: nat, len: nat, k: nat)
    requires who < |s.calls| && s.calls[who].pc == Locking(len) && IsLength(len) && Prefix(s.calls[who].hash, len) !in s.locks
    requires k >= 3
    ensures var h := s.calls[who].hash;
            var n := Prefix(h, len);
            var touched := if n in s.files then s.files else s.files[n := ""];
            Run(s, Advances(who, k)) ==
            Run(s.(files := touched, locks := s.locks[n := who],
                   calls := s.calls[who := Call(h, if touched[n] == "" then Truncating(len) else Releasing(len, touched[n] == h))]),
                Advances(who, k - 3))
  {
    hide Prefix, Run;
    var h := s.calls[who].hash;
    var n := Prefix(h, len);
    AdvanceOnce(s, who, k);
    var s1 := Advanced(s, who);
    AdvanceOnce(s1, who, k - 1);
    var s2 := Advanced(s1, who);
    AdvanceOnce(s2, who, k - 2);
    assert s1.calls == s.calls[who := Call(h, Touching(len))];
    assert s2.calls == s.calls[who := Call(h, Reading(len))];
    var touched := if n in s.files then s.files else s.files[n := ""];
    assert s2.files == touched;
    var s3 := Advanced(s2, who);
    assert s3.calls == s.calls[who := Call(h, if touched[n] == "" then Truncating(len) else Releasing(len, touched[n] == h))];
  }

  /** Run to its end without interruption, a call does what the loop does. */
  lemma {:induction false} AloneIsSequential(s: State, who: nat, len: nat) returns (k: nat)
    requires who < |s.calls| && s.calls[who].pc == Locking(len) && IsLength(len) && s.locks == map[]
    ensures var h := s.calls[who].hash;
            var (files, name) := Claim(s.files, h, len);
            Run(s, Advances(who, k)) ==
            s.(files := files, calls := s.calls[who := Call(h, Done)], answers := s.answers + [Answer(h, name, false)])
    decreases FULL - len
  {
    hide Prefix, Run;
    var h := s.calls[who].hash;
    var n := Prefix(h, len);
    var touched := if n in s.files then s.files else s.files[n := ""];
    if touched[n] == "" {
      k := 6;
      TriesPrefix(s, who, len, k);
      WritesClaim(s.(files := touched), who, len, h);
    } else if touched[n] == h || len == FULL {
      k := 4;
      TriesPrefix(s, who, len, k);
      LetsGo(s.(files := touched), who, len, h, touched[n] == h, 1);
    } else {
      var next := s.(files := touched, calls := s.calls[who := Call(h, Locking(len + 4))]);
      k := AloneIsSequential(next, who, len + 4);
      k := k + 4;
      TriesPrefix(s, who, len, k);
      LetsGo(s.(files := touched), who, len, h, false, k - 3);
      assert next.calls[who := Call(h, Done)] == s.calls[who := Call(h, Done)];
    }
  }

  lemma WritesClaim(s: State, who: nat, len: nat, h: Hash)
    requires who < |s.calls| && IsLength(len) && s.locks == map[] && Prefix(h, len) in s.files
    ensures var n := Prefix(h, len);
            Run(s.(locks := map[n := who], calls := s.calls[who := Call(h, Truncating(len))]), Advances(who, 3)) ==
            s.(files := s.files[n := h], calls := s.calls[who := Call(h, Done)], answers := s.answers + [Answer(h, n, false)])
  {
    hide Prefix, Run;
    var n := Prefix(h, len);
    var s0 := s.(locks := map[n := who], calls := s.calls[who := Call(h, Truncating(len))]);
    AdvanceOnce(s0, who, 3);
    var s1 := Advanced(s0, who);
    AdvanceOnce(s1, who, 2);
    var s2 := Advanced(s1, who);
    assert s1.calls == s.calls[who := Call(h, Writing(len))];
    assert s2.calls == s.calls[who := Call(h, Releasing(len, true))];
    assert s2.files == s.files[n := h];
    LetsGo(s.(files := s.files[n := h]), who, len, h, true, 1);
  }

  /** Dropping the lock: the call ends, or goes on to the next length. */
  lemma LetsGo(s: State, who: nat, len: nat, h: Hash, won: bool, k: nat)
    requires who < |s.calls| && IsLength(len) && s.locks == map[] && k > 0
    requires won || len == FULL ==> k == 1
    ensures var n := Prefix(h, len);
            Run(s.(locks := map[n := who], calls := s.calls[who := Call(h, Releasing(len, won))]), Advances(who, k)) ==
            if won || len == FULL
            then s.(calls := s.calls[who := Call(h, Done)], answers := s.answers + [Answer(h, n, false)])
            else Run(s.(calls := s.calls[who := Call(h, Locking(len + 4))]), Advances(who, k - 1))
  {
    hide Prefix;
    var n := Prefix(h, len);
    var s0 := s.(locks := map[n := who], calls := s.calls[who := Call(h, Releasing(len, won))]);
    AdvanceOnce(s0, who, k);
    assert map[n := who] - {n} == map[];
    var s1 := Advanced(s0, who);
    assert s1.calls == if won || len == FULL then s.calls[who := Call(h, Done)] else s.calls[who := Call(h, Locking(len + 4))];
  }

  /** A whole call, from its first check on, uninterrupted: the same files and name as the loop in place. */
  lemma WholeCallAlone(s: State, who: nat) returns (k: nat)
    requires who < |s.calls| && s.calls[who].pc == Checking && s.locks == map[]
    ensures var h := s.calls[who].hash;
            var (files, name) := if h in s.dirs then (s.files, h) else Claim(s.files, h, 4);
            Run(s, Advances(who, k)) ==
            s.(files := files, calls := s.calls[who := Call(h, Done)], answers := s.answers + [Answer(h, name, h in s.dirs)])
  {
    hide Run, Claim;
    var h := s.calls[who].hash;
    if h in s.dirs {
      k := 1;
      AdvanceOnce(s, who, 1);
      NoAdvance(Advanced(s, who), who);
    } else {
      var next := s.(calls := s.calls[who := Call(h, Locking(4))]);
      k := AloneIsSequential(next, who, 4);
      k := k + 1;
      AdvanceOnce(s, who, k);
      assert next.calls[who := Call(h, Done)] == s.calls[who := Call(h, Done)];
    }
  }

  lemma NoAdvance(s: State, who: nat)
    ensures Run(s, Advances(who, 0)) == s
  {
  }
}
