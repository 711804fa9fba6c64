/**
 The execution cache as an object whose methods change the directory and the counters in place, each
 tied to the step of the same name in `Cache`.
 */
module CacheStore {
  import opened Json
  import Cache

  const MAX_ENTRIES: nat := 20000
  const MAX_TOTAL_BYTES: nat := 0x2000_0000
  const MAX_SCANNED_FILES: nat := 40000
  /** In nanoseconds. */
  const TEMP_MAX_AGE: int := 3_600_000_000_000

  /** What the directory walk of trim meets: a temporary file, an entry file of some key, or anything else. */
  datatype Kind = Temp(name: string) | Entry(key: string) | Foreign

  datatype Seen = Seen(kind: Kind, regular: bool, size: nat, mod: int) {
    predicate IsEntry() {
      regular && kind.Entry?
    }

    predicate Stale(now: int) {
      now - mod > Cache.ENTRY_TTL
    }

    /** A temporary file that some interrupted store left behind. */
    predicate Stray(now: int) {
      regular && kind.Temp? && now - mod > TEMP_MAX_AGE
    }

    function Key(): string {
      if kind.Entry? then kind.key else ""
    }
  }

  /** The entry files of a walk that are too old, and those that are not, in walk order. */
  function Aged(seen: seq<Seen>, now: int, stale: bool): seq<Seen> {
    if seen == [] then []
    else
      var last := seen[|seen| - 1];
      Aged(seen[..|seen| - 1], now, stale) + if last.IsEntry() && last.Stale(now) == stale then [last] else []
  }

  /** The stray temporary files of a walk. */
  function Strays(seen: seq<Seen>, now: int): set<string> {
    set x | x in seen && x.Stray(now) :: x.kind.name
  }

  function Bytes(s: seq<Seen>): nat {
    if s == [] then 0 else Bytes(s[..|s| - 1]) + s[|s| - 1].size
  }

  function Keys(s: seq<Seen>): set<string> {
    set x | x in s :: x.Key()
  }

  /** How many of the files can be removed. */
  function Removable(s: seq<Seen>, stuck: set<string>): nat {
    if s == [] then 0 else Removable(s[..|s| - 1], stuck) + if s[|s| - 1].Key() in stuck then 0 else 1
  }

  predicate OldestFirst(s: seq<Seen>) {
    forall i, j :: 0 <= i < j < |s| ==> s[i].mod <= s[j].mod
  }

  /** What is left once the first k are gone is below nine tenths of both limits. */
  predicate Fits(s: seq<Seen>, k: nat)
    requires k <= |s|
  {
    |s| - k <= MAX_ENTRIES * 9 / 10 && Bytes(s) - Bytes(s[..k]) <= MAX_TOTAL_BYTES * 9 / 10
  }

  /** The shortest prefix whose removal reaches both bounds. */
  predicate Least(s: seq<Seen>, k: nat) {
    k <= |s| && Fits(s, k) && forall j :: 0 <= j < k ==> !Fits(s, j)
  }

  predicate Crowded(s: seq<Seen>) {
    |s| > MAX_ENTRIES || Bytes(s) > MAX_TOTAL_BYTES
  }

  lemma {:induction false} BytesOfConcat(a: seq<Seen>, b: seq<Seen>)
    ensures Bytes(a + b) == Bytes(a) + Bytes(b)
    decreases |b|
  {
    if b == [] {
      assert a + b == a;
    } else {
      BytesOfConcat(a, b[..|b| - 1]);
      assert (a + b)[..|a + b| - 1] == a + b[..|b| - 1];
    }
  }

  /** A sequence without its k-th element. */
  lemma Without(s: seq<Seen>, k: nat)
    requires k < |s|
    ensures multiset(s) == multiset(s[..k] + s[k + 1..]) + multiset{s[k]}
    ensures Bytes(s) == Bytes(s[..k] + s[k + 1..]) + s[k].size
  {
    hide Bytes;
    Parted(s, k);
    BytesOfConcat(s[..k], [s[k]] + s[k + 1..]);
    BytesOfConcat([s[k]], s[k + 1..]);
    BytesOfConcat(s[..k], s[k + 1..]);
    BytesOfOne(s[k]);
  }

  lemma Parted(s: seq<Seen>, k: nat)
    requires k < |s|
    ensures s == s[..k] + ([s[k]] + s[k + 1..])
    ensures multiset(s) == multiset(s[..k] + s[k + 1..]) + multiset{s[k]}
  {
    assert s == s[..k] + ([s[k]] + s[k + 1..]);
  }

  lemma BytesOfOne(x: Seen)
    ensures Bytes([x]) == x.size
  {
    assert [x][..0] == [];
  }

  /** The number of bytes does not depend on the order of the walk. */
  lemma {:induction false} BytesOfPermutation(s: seq<Seen>, t: seq<Seen>)
    requires multiset(s) == multiset(t)
    ensures |s| == |t| && Bytes(s) == Bytes(t)
    decreases |s|
  {
    hide Bytes;
    assert |s| == |multiset(s)| == |multiset(t)| == |t|;
    if s == [] {
      assert t == [];
    } else {
      var n := |s| - 1;
      Without(s, n);
      assert s[n] in multiset(t);
      var k :| 0 <= k < |t| && t[k] == s[n];
      Without(t, k);
      var u, v := s[..n] + s[n + 1..], t[..k] + t[k + 1..];
      assert multiset(u) == multiset(s) - multiset{s[n]} && multiset(v) == multiset(t) - multiset{s[n]};
      BytesOfPermutation(u, v);
    }
  }

  lemma BytesOfSplit(s: seq<Seen>, k: nat)
    requires k <= |s|
    ensures Bytes(s[k..]) == Bytes(s) - Bytes(s[..k])
    ensures multiset(s) == multiset(s[..k]) + multiset(s[k..])
  {
    assert s == s[..k] + s[k..];
    BytesOfConcat(s[..k], s[k..]);
  }

  /**
   What trim's choice means, whichever order it leaves equally old files in: the files removed are
   no younger than any file kept, the rest is within both bounds, and keeping one more file would
   exceed one of them.
   */
  lemma LeastIsOldest(seen: seq<Seen>, order: seq<Seen>, k: nat)
    requires multiset(order) == multiset(seen) && OldestFirst(order) && Least(order, k)
    ensures forall i, j :: 0 <= i < k <= j < |order| ==> order[i].mod <= order[j].mod
    ensures multiset(seen) == multiset(order[..k]) + multiset(order[k..])
    ensures |order[k..]| <= 18000 && Bytes(order[k..]) <= 483183820
    ensures k > 0 ==> |order[k - 1..]| > 18000 || Bytes(order[k - 1..]) > 483183820
    ensures Crowded(seen) ==> k > 0
  {
    hide Bytes;
    BytesOfPermutation(order, seen);
    BytesOfSplit(order, k);
    if k > 0 {
      BytesOfSplit(order, k - 1);
      assert !Fits(order, k - 1);
    } else {
      assert order[0..] == order;
    }
  }

  lemma Placed(a: seq<Seen>, x: Seen, b: seq<Seen>)
    requires OldestFirst(a + b) && (forall j :: 0 <= j < |b| ==> x.mod < b[j].mod) && (a != [] ==> a[|a| - 1].mod <= x.mod)
    ensures OldestFirst(a + [x] + b)
  {
    forall i, j | 0 <= i < j < |a + [x] + b|
      ensures (a + [x] + b)[i].mod <= (a + [x] + b)[j].mod
    {
      var s, r := a + b, a + [x] + b;
      assert forall k :: 0 <= k < |a| ==> r[k] == s[k] == a[k];
      assert forall k :: |a| < k < |r| ==> r[k] == s[k - 1] == b[k - 1 - |a|];
      if i < |a| && j == |a| {
        assert s[i].mod <= s[|a| - 1].mod;
      }
    }
  }

  method Place(order: seq<Seen>, x: Seen) returns (at: nat)
    ensures at <= |order| && (at > 0 ==> order[at - 1].mod <= x.mod)
    ensures forall j :: at <= j < |order| ==> x.mod < order[j].mod
  {
    at := |order|;
    while at > 0 && x.mod < order[at - 1].mod
      invariant 0 <= at <= |order|
      invariant forall j :: at <= j < |order| ==> x.mod < order[j].mod
    {
      at := at - 1;
    }
  }

  lemma Inserts(order: seq<Seen>, at: nat, x: Seen)
    requires OldestFirst(order) && at <= |order| && (at > 0 ==> order[at - 1].mod <= x.mod)
    requires forall j :: at <= j < |order| ==> x.mod < order[j].mod
    ensures OldestFirst(order[..at] + [x] + order[at..])
    ensures multiset(order[..at] + [x] + order[at..]) == multiset(order) + multiset{x}
  {
    hide OldestFirst;
    assert order == order[..at] + order[at..];
    Placed(order[..at], x, order[at..]);
  }

  lemma NothingOldest()
    ensures OldestFirst([])
  {}

  /** Oldest first. Equally old files may come in any order. */
  method SortByAge(seen: seq<Seen>) returns (order: seq<Seen>)
    ensures multiset(order) == multiset(seen) && OldestFirst(order)
  {
    hide OldestFirst;
    order := [];
    NothingOldest();
    for i := 0 to |seen|
      invariant multiset(order) == multiset(seen[..i]) && OldestFirst(order)
    {
      var at := Place(order, seen[i]);
      Inserts(order, at, seen[i]);
      assert seen[..i + 1] == seen[..i] + [seen[i]];
      order := order[..at] + [seen[i]] + order[at..];
    }
    assert seen[..|seen|] == seen;
  }

  class Store {
    const codec: Cache.Codec
    var files: map<string, Cache.File>
    var temps: set<string>
    var disabled: bool
    var rejected: nat
    var evicted: nat
    var puts: nat
    var putBytes: nat
    var failures: nat

    /** The store as Cache sees it, at the time the clock shows. */
    ghost function State(now: int): Cache.Store
      reads this
    {
      Cache.Store(files, now, disabled, rejected, evicted, puts, putBytes, failures)
    }

    constructor (codec: Cache.Codec, files: map<string, Cache.File>, temps: set<string>)
      ensures this.codec == codec && this.temps == temps && forall now :: State(now) == Cache.Opened(files, now)
    {
      this.codec := codec;
      this.files, this.temps := files, temps;
      disabled, rejected, evicted, puts, putBytes, failures := false, 0, 0, 0, 0, 0;
    }

    method Failed(ghost now: int)
      modifies this`failures, this`disabled
      ensures State(now) == Cache.Fail(old(State(now)))
    {
      failures := failures + 1;
      if failures >= Cache.MAX_FAILURES && !disabled {
        disabled := true;
      }
    }

    method Remove(key: string, faults: Cache.Faults, ghost now: int) returns (ok: bool)
      modifies this`files
      ensures ok == !faults.remove
      ensures files == Cache.After(old(State(now)), faults, key)
    {
      ok := !faults.remove;
      if ok {
        files := files - {key};
      }
    }

    method Reject(key: string, faults: Cache.Faults, ghost now: int) returns (answer: Cache.Answer)
      modifies this`files, this`rejected
      ensures answer == Cache.Rejected(!faults.remove)
      ensures rejected == old(rejected) + 1 && files == Cache.After(old(State(now)), faults, key)
    {
      rejected := rejected + 1;
      var ok := Remove(key, faults, now);
      answer := Cache.Rejected(ok);
    }

    method Get(key: string, now: int, faults: Cache.Faults) returns (answer: Cache.Answer)
      modifies this
      ensures temps == old(temps)
      ensures (State(now), answer) == Cache.GetStep(codec, old(State(now)), key, faults)
    {
      hide Cache.ValidEntry;
      if disabled || !Cache.ValidKey(key) {
        return Cache.Miss;
      }
      if faults.stat {
        Failed(now);
        return Cache.Answer.Failed;
      }
      if key !in files {
        return Cache.Miss;
      }
      var file := files[key];
      if !file.regular || |file.data| > Cache.MAX_FILE_BYTES {
        answer := Reject(key, faults, now);
        return;
      }
      if faults.read {
        Failed(now);
        return Cache.Answer.Failed;
      }
      var decoded := codec.decode(file.data);
      if decoded.None? || !Cache.ValidEntry(codec, decoded.value, key) {
        answer := Reject(key, faults, now);
        return;
      }
      var e := decoded.value;
      Cache.ValidIsTimed(codec, e, key);
      if e.recordedAt.value > now + Cache.FUTURE_SKEW {
        answer := Reject(key, faults, now);
        return;
      }
      if Cache.TooOld(e, now) {
        var ok := Remove(key, faults, now);
        if ok {
          evicted := evicted + 1;
        }
        return Cache.Expired(ok);
      }
      failures := 0;
      answer := Cache.Hit(e);
    }

    method Put(e: Cache.Entry, now: int, faults: Cache.Faults) returns (answer: Cache.Answer)
      modifies this
      ensures temps == old(temps)
      ensures (State(now), answer) == Cache.PutStep(codec, old(State(now)), e, faults)
    {
      hide Cache.ValidEntry;
      if disabled || !Cache.ValidEntry(codec, e, e.key) {
        return Cache.PutRefused;
      }
      Cache.ValidIsTimed(codec, e, e.key);
      if e.recordedAt.value > now + Cache.FUTURE_SKEW {
        return Cache.PutRefused;
      }
      var data := codec.encode(e);
      if puts >= Cache.MAX_PUTS || putBytes + |data| > Cache.MAX_PUT_BYTES {
        return Cache.PutRefused;
      }
      if |data| > Cache.MAX_FILE_BYTES {
        return Cache.PutRefused;
      }
      if faults.write {
        Failed(now);
        return Cache.Answer.Failed;
      }
      files := files[e.key := Cache.File(true, data)];
      puts := puts + 1;
      putBytes := putBytes + |data|;
      failures := 0;
      answer := Cache.PutDone(|data|);
    }

    method Delete(key: string, now: int, faults: Cache.Faults) returns (answer: Cache.Answer)
      modifies this
      ensures temps == old(temps)
      ensures (State(now), answer) == Cache.DeleteStep(old(State(now)), key, faults)
    {
      if !Cache.ValidKey(key) {
        return Cache.Quiet;
      }
      if faults.remove {
        // A missing file is no error, unless even that cannot be told.
        if key in files || faults.stat {
          Failed(now);
          return Cache.Answer.Failed;
        }
        return Cache.Deleted;
      }
      files := files - {key};
      answer := Cache.Deleted;
    }

    /** The removal of one file by trim. */
    method Evict(x: Seen, stuck: set<string>)
      modifies this`files, this`evicted
      ensures files == old(files) - ({x.Key()} - stuck)
      ensures evicted == old(evicted) + if x.Key() in stuck then 0 else 1
    {
      if x.Key() !in stuck {
        files := files - {x.Key()};
        evicted := evicted + 1;
      }
    }

    /** The directory walk of trim: stray files and entries past their age go at once, the other entries are collected. */
    method Scan(seen: seq<Seen>, now: int, stuck: set<string>) returns (entries: seq<Seen>, total: nat)
      modifies this`files, this`temps, this`evicted
      ensures entries == Aged(seen, now, false) && total == Bytes(entries)
      ensures files == old(files) - (Keys(Aged(seen, now, true)) - stuck)
      ensures temps == old(temps) - (Strays(seen, now) - stuck)
      ensures evicted == old(evicted) + Removable(Aged(seen, now, true), stuck)
    {
      hide Bytes, Keys, Removable, Aged, Strays;
      entries, total := [], 0;
      ghost var gone: seq<Seen> := [];
      Nothing(seen, now, stuck);
      var i := 0;
      while i < |seen|
        invariant 0 <= i <= |seen|
        invariant entries == Aged(seen[..i], now, false) && gone == Aged(seen[..i], now, true)
        invariant total == Bytes(entries)
        invariant files == old(files) - (Keys(gone) - stuck)
        invariant temps == old(temps) - (Strays(seen[..i], now) - stuck)
        invariant evicted == old(evicted) + Removable(gone, stuck)
      {
        AgedNext(seen, i, now);
        StraysNext(seen, i, now);
        var x := seen[i];
        if x.IsEntry() {
          if x.Stale(now) {
            Grown(gone, x, stuck);
            Fewer(old(files), Keys(gone), {x.Key()}, stuck);
            gone := gone + [x];
            Evict(x, stuck);
          } else {
            Grown(entries, x, stuck);
            entries := entries + [x];
            total := total + x.size;
          }
        } else if x.Stray(now) && x.kind.name !in stuck {
          temps := temps - {x.kind.name};
        }
        i := i + 1;
      }
      assert seen[..i] == seen;
    }

    /** The removal of the oldest entries until both bounds hold. */
    method Shrink(order: seq<Seen>, total: nat, stuck: set<string>) returns (k: nat)
      requires total == Bytes(order)
      modifies this`files, this`evicted
      ensures Least(order, k)
      ensures files == old(files) - (Keys(order[..k]) - stuck)
      ensures evicted == old(evicted) + Removable(order[..k], stuck)
    {
      hide Bytes, Keys, Removable;
      k := 0;
      var remaining, left := |order|, total as int;
      Nothing(order, 0, stuck);
      assert order[..0] == [] && order[..|order|] == order;
      while k < |order| && !(remaining <= MAX_ENTRIES * 9 / 10 && left <= MAX_TOTAL_BYTES * 9 / 10)
        invariant 0 <= k <= |order|
        invariant remaining == |order| - k && left == Bytes(order) - Bytes(order[..k])
        invariant forall j :: 0 <= j < k ==> !Fits(order, j)
        invariant files == old(files) - (Keys(order[..k]) - stuck)
        invariant evicted == old(evicted) + Removable(order[..k], stuck)
      {
        var x := order[k];
        Grown(order[..k], x, stuck);
        Fewer(old(files), Keys(order[..k]), {x.Key()}, stuck);
        assert order[..k + 1] == order[..k] + [x];
        Evict(x, stuck);
        remaining := remaining - 1;
        left := left - x.size;
        k := k + 1;
      }
    }

    /**
     trim, with the files the walk meets, those that cannot be removed, and what is left when the
     whole layout cannot be. A walk past the scan limit removes everything; otherwise stray files and
     entries past their age go, and, when the rest exceeds a limit, exactly the shortest
     oldest-first prefix that brings it within nine tenths of both.
     */
    method Trim(seen: seq<Seen>, now: int, stuck: set<string>, wiped: bool, left: set<string>) returns (order: seq<Seen>, k: nat)
      modifies this`files, this`temps, this`evicted
      ensures |seen| > MAX_SCANNED_FILES ==>
                var met := seen[..MAX_SCANNED_FILES];
                && evicted == old(evicted) + Removable(Aged(met, now, true), stuck) + (if wiped then |Aged(met, now, false)| else 0)
                && (wiped ==> files == map[] && temps == {})
                && (!wiped ==> files.Keys == (old(files).Keys - (Keys(Aged(met, now, true)) - stuck)) * left
                               && temps == (old(temps) - (Strays(met, now) - stuck)) * left)
                && forall key :: key in files ==> key in old(files) && files[key] == old(files)[key]
      ensures |seen| <= MAX_SCANNED_FILES ==>
                && multiset(order) == multiset(Aged(seen, now, false)) && OldestFirst(order)
                && (if Crowded(order) then Least(order, k) else k == 0)
                && files == old(files) - (Keys(Aged(seen, now, true)) + Keys(order[..k]) - stuck)
                && temps == old(temps) - (Strays(seen, now) - stuck)
                && evicted == old(evicted) + Removable(Aged(seen, now, true), stuck) + Removable(order[..k], stuck)
    {
      hide Least, Aged, OldestFirst, Strays;
      k := 0;
      if |seen| > MAX_SCANNED_FILES {
        order := Overflow(seen[..MAX_SCANNED_FILES], now, stuck, wiped, left);
        return;
      }
      var entries, total := Scan(seen, now, stuck);
      order := SortByAge(entries);
      BytesOfPermutation(order, entries);
      assert order[..0] == [];
      if |entries| > MAX_ENTRIES || total > MAX_TOTAL_BYTES {
        k := Shrink(order, total, stuck);
        LeastIsPrefix(order, k);
      }
    }

    /** Past the scan limit: the whole layout goes, as far as it can be removed. */
    method Overflow(met: seq<Seen>, now: int, stuck: set<string>, wiped: bool, left: set<string>) returns (entries: seq<Seen>)
      modifies this`files, this`temps, this`evicted
      ensures evicted == old(evicted) + Removable(Aged(met, now, true), stuck) + (if wiped then |Aged(met, now, false)| else 0)
      ensures wiped ==> files == map[] && temps == {}
      ensures !wiped ==> files.Keys == (old(files).Keys - (Keys(Aged(met, now, true)) - stuck)) * left
                         && temps == (old(temps) - (Strays(met, now) - stuck)) * left
      ensures forall key :: key in files ==> key in old(files) && files[key] == old(files)[key]
    {
      hide Aged, Strays, Keys, Removable;
      var total;
      entries, total := Scan(met, now, stuck);
      if wiped {
        files, temps := map[], {};
        evicted := evicted + |entries|;
      } else {
        files, temps := map key | key in files && key in left :: files[key], temps * left;
      }
    }
  }

  lemma Nothing(seen: seq<Seen>, now: int, stuck: set<string>)
    ensures Aged(seen[..0], now, false) == [] && Aged(seen[..0], now, true) == []
    ensures Bytes([]) == 0 && Keys([]) == {} && Removable([], stuck) == 0 && Strays(seen[..0], now) == {}
  {}

  lemma AgedNext(seen: seq<Seen>, i: nat, now: int)
    requires i < |seen|
    ensures Aged(seen[..i + 1], now, false)
         == Aged(seen[..i], now, false) + if seen[i].IsEntry() && !seen[i].Stale(now) then [seen[i]] else []
    ensures Aged(seen[..i + 1], now, true)
         == Aged(seen[..i], now, true) + if seen[i].IsEntry() && seen[i].Stale(now) then [seen[i]] else []
  {
    assert seen[..i + 1][..i] == seen[..i];
  }

  lemma StraysNext(seen: seq<Seen>, i: nat, now: int)
    requires i < |seen|
    ensures Strays(seen[..i + 1], now) == Strays(seen[..i], now) + if seen[i].Stray(now) then {seen[i].kind.name} else {}
  {
    assert seen[..i + 1] == seen[..i] + [seen[i]];
    assert seen[i] in seen[..i + 1];
    forall x | x in seen[..i]
      ensures x in seen[..i + 1]
    {}
  }

  lemma Fewer(files: map<string, Cache.File>, a: set<string>, b: set<string>, stuck: set<string>)
    ensures files - (a - stuck) - (b - stuck) == files - (a + b - stuck)
  {}

  lemma LeastIsPrefix(s: seq<Seen>, k: nat)
    ensures Least(s, k) ==> k <= |s|
  {}

  lemma Grown(s: seq<Seen>, x: Seen, stuck: set<string>)
    ensures Bytes(s + [x]) == Bytes(s) + x.size
    ensures Keys(s + [x]) == Keys(s) + {x.Key()}
    ensures Removable(s + [x], stuck) == Removable(s, stuck) + if x.Key() in stuck then 0 else 1
  {
    assert (s + [x])[..|s|] == s;
    var t := s + [x];
    forall key | key in Keys(s) + {x.Key()}
      ensures key in Keys(t)
    {
      if key in Keys(s) {
        var y :| y in s && y.Key() == key;
        assert y in t;
      } else {
        assert t[|s|] == x;
      }
    }
  }
}
