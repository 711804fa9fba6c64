/** The execution cache over all its runs. */
module Cache {
  import opened Json
  import opened Records

  // ----- entries -----

  const MAX_FILE_BYTES: nat := 0x100_0000
  const MAX_OUTPUT_BYTES: nat := 0x40_0000
  const MAX_PAYLOAD_BYTES: nat := 0x40_0040
  const MAX_DURATION_MS: int := 86_400_000
  const MAX_LIVE_RUNS: int := 0x10_0000
  const MAX_PROVENANCE: nat := 128
  const MAX_PUT_BYTES: nat := 0x1000_0000
  const MAX_PUTS: nat := 256
  const MAX_FAILURES: nat := 3
  /** Times are in nanoseconds. */
  const ENTRY_TTL: int := 2_592_000_000_000_000
  const FUTURE_SKEW: int := 300_000_000_000

  datatype Entry = Entry(key: string, preimage: string, status: string, exitCode: int, output: string, truncated: bool,
                         durationMS: int, payload: string, liveRuns: int, contradicted: bool, recordedAt: Option<int>,
                         recordedRun: string, recordedCheck: string)

  predicate IsProvenance(s: string) {
    |s| <= MAX_PROVENANCE && forall k :: 0 <= k < |s| ==>
      'A' <= s[k] <= 'Z' || 'a' <= s[k] <= 'z' || '0' <= s[k] <= '9' || s[k] in "._:-"
  }

  predicate ValidKey(key: string) {
    IsHash(key)
  }

  /**
   The parts of the store that are libraries here: the hash, the preimage decoder, and the file
   format (envelope, content hash, strict JSON). Files are read back as what was written.
   */
  datatype Codec = Codec(sha: string -> string, preimage: string -> bool, encode: Entry -> string, decode: string -> Option<Entry>) {
    ghost predicate RoundTrips() {
      forall e :: decode(encode(e)) == Some(e)
    }
  }

  /** validateEntry. */
  predicate ValidEntry(c: Codec, e: Entry, key: string) {
    && ValidKey(key) && e.key == key
    && c.sha(e.preimage) == key
    && (e.status == "PASS" || e.status == "FAIL")
    && (e.status == "PASS" ==> e.exitCode == 0) && (e.status == "FAIL" ==> 1 <= e.exitCode <= 124)
    && 0 <= e.durationMS <= MAX_DURATION_MS
    && 1 <= e.liveRuns <= MAX_LIVE_RUNS
    && |e.output| <= MAX_OUTPUT_BYTES && |e.payload| <= MAX_PAYLOAD_BYTES
    && e.recordedAt.Some?
    && IsProvenance(e.recordedRun) && IsProvenance(e.recordedCheck)
    && c.preimage(e.preimage)
  }

  // ----- the store and its operations -----

  datatype File = File(regular: bool, data: string)

  /** The directory, the clock and the counters of one store. */
  datatype Store = Store(files: map<string, File>, now: int, disabled: bool, rejected: nat, evicted: nat,
                         puts: nat, putBytes: nat, failures: nat)

  /** Which system calls fail. */
  datatype Faults = Faults(stat: bool, read: bool, remove: bool, write: bool)

  datatype Op =
    | Get(key: string, faults: Faults)
    | Put(e: Entry, faults: Faults)
    | Delete(key: string, faults: Faults)
    | Interfere(files: map<string, File>)
    | Tick(ns: nat)

  /** What an operation answers, for the caller and for the accounting. */
  datatype Answer =
    | Hit(e: Entry) | Miss | Rejected(removed: bool) | Expired(removed: bool) | Failed
    | PutDone(bytes: nat) | PutRefused | Deleted | Quiet

  function After(s: Store, faults: Faults, key: string): map<string, File> {
    if faults.remove then s.files else s.files - {key}
  }

  /** failed: the third consecutive failure disables the store. */
  function Fail(s: Store): Store {
    s.(failures := s.failures + 1, disabled := s.disabled || s.failures + 1 >= MAX_FAILURES)
  }

  /** Why the file of a key is no entry, if it is none. */
  function ReadEntry(c: Codec, f: File, key: string, now: int): Option<Entry> {
    if !f.regular || |f.data| > MAX_FILE_BYTES then None
    else match c.decode(f.data)
         case None => None
         case Some(e) =>
           if ValidEntry(c, e, key) && e.recordedAt.value <= now + FUTURE_SKEW then Some(e) else None
  }

  predicate TooOld(e: Entry, now: int)
    requires e.recordedAt.Some?
  {
    now - e.recordedAt.value > ENTRY_TTL
  }

  function GetStep(c: Codec, s: Store, key: string, faults: Faults): (Store, Answer) {
    if s.disabled || !ValidKey(key) then (s, Miss)
    else if faults.stat then (Fail(s), Failed)
    else if key !in s.files then (s, Miss)
    else if faults.read && s.files[key].regular && |s.files[key].data| <= MAX_FILE_BYTES then (Fail(s), Failed)
    else match ReadEntry(c, s.files[key], key, s.now)
         case None => (s.(rejected := s.rejected + 1, files := After(s, faults, key)), Rejected(!faults.remove))
         case Some(e) =>
           if e.recordedAt.Some? && TooOld(e, s.now) then
             (s.(files := After(s, faults, key), evicted := s.evicted + if faults.remove then 0 else 1), Expired(!faults.remove))
           else (s.(failures := 0), Hit(e))
  }

  function PutStep(c: Codec, s: Store, e: Entry, faults: Faults): (Store, Answer) {
    if s.disabled || !ValidEntry(c, e, e.key) || e.recordedAt.value > s.now + FUTURE_SKEW then (s, PutRefused)
    else
      var data := c.encode(e);
      if s.puts >= MAX_PUTS || s.putBytes + |data| > MAX_PUT_BYTES || |data| > MAX_FILE_BYTES then (s, PutRefused)
      else if faults.write then (Fail(s), Failed)
      else (s.(files := s.files[e.key := File(true, data)], puts := s.puts + 1, putBytes := s.putBytes + |data|, failures := 0),
            PutDone(|data|))
  }

  function DeleteStep(s: Store, key: string, faults: Faults): (Store, Answer) {
    if !ValidKey(key) then (s, Quiet)
    else if faults.remove then (if key in s.files || faults.stat then (Fail(s), Failed) else (s, Deleted))
    else (s.(files := s.files - {key}), Deleted)
  }

  function StoreStep(c: Codec, s: Store, op: Op): (Store, Answer) {
    match op
    case Get(key, faults) => GetStep(c, s, key, faults)
    case Put(e, faults) => PutStep(c, s, e, faults)
    case Delete(key, faults) => DeleteStep(s, key, faults)
    case Interfere(files) => (s.(files := files), Quiet)
    case Tick(ns) => (s.(now := s.now + ns), Quiet)
  }

  /** A freshly opened store over a directory. */
  function Opened(files: map<string, File>, now: int): Store {
    Store(files, now, false, 0, 0, 0, 0, 0)
  }

  /** The state after a run of operations, and its answers. */
  function Run(c: Codec, s: Store, ops: seq<Op>): (Store, seq<Answer>)
    decreases |ops|
  {
    if ops == [] then (s, [])
    else
      var (before, answers) := Run(c, s, ops[..|ops| - 1]);
      var (after, answer) := StoreStep(c, before, ops[|ops| - 1]);
      (after, answers + [answer])
  }

  lemma {:induction false} RunPrefix(c: Codec, s: Store, ops: seq<Op>, k: nat)
    requires k < |ops|
    ensures |Run(c, s, ops).1| == |ops|
    ensures Run(c, s, ops).1[k] == StoreStep(c, Run(c, s, ops[..k]).0, ops[k]).1
    ensures Run(c, s, ops[..k + 1]).0 == StoreStep(c, Run(c, s, ops[..k]).0, ops[k]).0
    decreases |ops|
  {
    RunSize(c, s, ops);
    RunSize(c, s, ops[..|ops| - 1]);
    assert ops[..k + 1][..k] == ops[..k];
    if k < |ops| - 1 {
      RunPrefix(c, s, ops[..|ops| - 1], k);
      assert ops[..|ops| - 1][..k] == ops[..k];
    }
  }

  lemma {:induction false} RunSize(c: Codec, s: Store, ops: seq<Op>)
    ensures |Run(c, s, ops).1| == |ops|
    decreases |ops|
  {
    if ops != [] {
      RunSize(c, s, ops[..|ops| - 1]);
    }
  }

  // ----- every hit is a valid entry -----

  /**
   Whatever happened to the files, a hit is a valid unexpired entry of its key, whose preimage
   hashes to the key.
   */
  lemma HitIsValid(c: Codec, s: Store, ops: seq<Op>, k: nat)
    requires k < |ops| && ops[k].Get? && |Run(c, s, ops).1| == |ops| && Run(c, s, ops).1[k].Hit?
    ensures var e, now := Run(c, s, ops).1[k].e, Run(c, s, ops[..k]).0.now;
            && ValidEntry(c, e, ops[k].key) && c.sha(e.preimage) == ops[k].key
            && now - ENTRY_TTL <= e.recordedAt.value <= now + FUTURE_SKEW
  {
    RunPrefix(c, s, ops, k);
  }

  // ----- the failure latch -----

  /** Failures since the last hit or store. */
  function Streak(answers: seq<Answer>): nat
    decreases |answers|
  {
    if answers == [] then 0
    else
      var last := answers[|answers| - 1];
      if last.Failed? then Streak(answers[..|answers| - 1]) + 1
      else if last.Hit? || last.PutDone? then 0
      else Streak(answers[..|answers| - 1])
  }

  /** Some three failures had no hit or store between them. */
  predicate Broke(answers: seq<Answer>) {
    exists k :: 0 <= k <= |answers| && Streak(answers[..k]) >= MAX_FAILURES
  }

  lemma BrokeNext(answers: seq<Answer>, last: Answer)
    ensures Broke(answers + [last]) <==> Broke(answers) || Streak(answers + [last]) >= MAX_FAILURES
  {
    var all := answers + [last];
    assert all[..|all|] == all;
    forall k | 0 <= k <= |answers| ensures all[..k] == answers[..k] {}
    if Broke(all) {
      var k :| 0 <= k <= |all| && Streak(all[..k]) >= MAX_FAILURES;
      assert k <= |answers| ==> Streak(answers[..k]) >= MAX_FAILURES;
    }
    if Broke(answers) {
      var k :| 0 <= k <= |answers| && Streak(answers[..k]) >= MAX_FAILURES;
      assert Streak(all[..k]) >= MAX_FAILURES;
    }
  }

  /**
   The store is disabled exactly when some three I/O failures had no hit or store between them,
   however the operations are interleaved; it never recovers.
   */
  lemma {:induction false} LatchIsStreak(c: Codec, files: map<string, File>, now: int, ops: seq<Op>)
    ensures var (s, answers) := Run(c, Opened(files, now), ops);
            && s.failures == Streak(answers)
            && (s.disabled <==> Broke(answers))
    decreases |ops|
  {
    if ops == [] {
      assert Streak([]) == 0;
    } else {
      LatchIsStreak(c, files, now, ops[..|ops| - 1]);
      var (before, answers) := Run(c, Opened(files, now), ops[..|ops| - 1]);
      var answer := StoreStep(c, before, ops[|ops| - 1]).1;
      BrokeNext(answers, answer);
      assert (answers + [answer])[..|answers|] == answers;
      FailuresStep(c, before, ops[|ops| - 1]);
    }
  }

  lemma FailuresStep(c: Codec, s: Store, op: Op)
    ensures var (t, answer) := StoreStep(c, s, op);
            && t.failures == (if answer.Failed? then s.failures + 1 else if answer.Hit? || answer.PutDone? then 0 else s.failures)
            && t.disabled == (s.disabled || (answer.Failed? && t.failures >= MAX_FAILURES))
            && (s.disabled ==> !answer.Hit? && !answer.PutDone?)
  {
    hide ValidEntry, ReadEntry;
  }

  /** A disabled store serves and records nothing, whatever follows. */
  lemma {:induction false} DisabledForever(c: Codec, s: Store, ops: seq<Op>)
    requires s.disabled
    ensures Run(c, s, ops).0.disabled
    ensures forall k :: 0 <= k < |Run(c, s, ops).1| ==> !Run(c, s, ops).1[k].Hit? && !Run(c, s, ops).1[k].PutDone?
    decreases |ops|
  {
    if ops != [] {
      DisabledForever(c, s, ops[..|ops| - 1]);
      FailuresStep(c, Run(c, s, ops[..|ops| - 1]).0, ops[|ops| - 1]);
    }
  }

  // ----- the write limits -----

  function Stores(answers: seq<Answer>): nat
    decreases |answers|
  {
    if answers == [] then 0 else Stores(answers[..|answers| - 1]) + if answers[|answers| - 1].PutDone? then 1 else 0
  }

  function StoredBytes(answers: seq<Answer>): nat
    decreases |answers|
  {
    if answers == [] then 0
    else StoredBytes(answers[..|answers| - 1]) + match answers[|answers| - 1] case PutDone(bytes) => bytes case _ => 0
  }

  /** One run never stores more than 256 entries and 256 MiB, and no entry above the file limit. */
  lemma {:induction false} WritesBounded(c: Codec, files: map<string, File>, now: int, ops: seq<Op>)
    ensures var (s, answers) := Run(c, Opened(files, now), ops);
            && Stores(answers) == s.puts <= MAX_PUTS
            && StoredBytes(answers) == s.putBytes <= MAX_PUT_BYTES
            && forall k :: 0 <= k < |answers| && answers[k].PutDone? ==> answers[k].bytes <= MAX_FILE_BYTES
    decreases |ops|
  {
    if ops != [] {
      WritesBounded(c, files, now, ops[..|ops| - 1]);
      var (before, answers) := Run(c, Opened(files, now), ops[..|ops| - 1]);
      var answer := StoreStep(c, before, ops[|ops| - 1]).1;
      assert (answers + [answer])[..|answers|] == answers;
      PutsStep(c, before, ops[|ops| - 1]);
    }
  }

  lemma PutsStep(c: Codec, s: Store, op: Op)
    ensures var (t, answer) := StoreStep(c, s, op);
            && (answer.PutDone? ==> t.puts == s.puts + 1 <= MAX_PUTS && t.putBytes == s.putBytes + answer.bytes <= MAX_PUT_BYTES
                                    && answer.bytes <= MAX_FILE_BYTES)
            && (!answer.PutDone? ==> t.puts == s.puts && t.putBytes == s.putBytes)
  {
    hide ValidEntry, ReadEntry;
  }

  // ----- the store as a map -----

  /** The simple cache: a map that only successful stores, deletions and expiries change. */
  function Apply(m: map<string, Entry>, op: Op, answer: Answer): map<string, Entry> {
    match op
    case Put(e, _) => if answer.PutDone? then m[e.key := e] else m
    case Delete(key, _) => if answer.Deleted? then m - {key} else m
    case Get(key, _) => if answer == Expired(true) then m - {key} else m
    case _ => m
  }

  function Model(c: Codec, s: Store, ops: seq<Op>): map<string, Entry>
    decreases |ops|
  {
    if ops == [] then map[]
    else
      var before := ops[..|ops| - 1];
      Apply(Model(c, s, before), ops[|ops| - 1], StoreStep(c, Run(c, s, before).0, ops[|ops| - 1]).1)
  }

  /** The directory holds exactly the entries of the map, each as it was written. */
  predicate Mirrors(c: Codec, s: Store, m: map<string, Entry>) {
    && s.files.Keys == m.Keys
    && forall key :: key in m ==>
         ValidEntry(c, m[key], key) && m[key].recordedAt.value <= s.now + FUTURE_SKEW
         && s.files[key] == File(true, c.encode(m[key])) && |c.encode(m[key])| <= MAX_FILE_BYTES
  }

  predicate Undisturbed(ops: seq<Op>) {
    forall k :: 0 <= k < |ops| ==> !ops[k].Interfere?
  }

  lemma MirrorRead(c: Codec, s: Store, m: map<string, Entry>, key: string)
    requires c.RoundTrips() && Mirrors(c, s, m) && key in m
    ensures ReadEntry(c, s.files[key], key, s.now) == Some(m[key])
  {
    assert c.decode(c.encode(m[key])) == Some(m[key]);
  }

  lemma MirrorsStep(c: Codec, s: Store, m: map<string, Entry>, op: Op)
    requires c.RoundTrips() && Mirrors(c, s, m) && !op.Interfere?
    ensures Mirrors(c, StoreStep(c, s, op).0, Apply(m, op, StoreStep(c, s, op).1))
    ensures !StoreStep(c, s, op).1.Rejected?
  {
    hide ValidEntry, ReadEntry;
    match op {
      case Get(key, faults) =>
        if key in m {
          MirrorRead(c, s, m, key);
        }
      case Put(e, faults) => ValidIsTimed(c, e, e.key);
      case Delete(key, faults) =>
      case Tick(ns) =>
    }
  }

  lemma ValidIsTimed(c: Codec, e: Entry, key: string)
    ensures ValidEntry(c, e, key) ==> e.recordedAt.Some?
  {}

  lemma {:induction false} RunMirrors(c: Codec, now: int, ops: seq<Op>)
    requires c.RoundTrips() && Undisturbed(ops)
    ensures Mirrors(c, Run(c, Opened(map[], now), ops).0, Model(c, Opened(map[], now), ops))
    decreases |ops|
  {
    hide Mirrors;
    var s := Opened(map[], now);
    if ops == [] {
      EmptyMirrors(c, s);
    } else {
      var before := ops[..|ops| - 1];
      RunMirrors(c, now, before);
      MirrorsStep(c, Run(c, s, before).0, Model(c, s, before), ops[|ops| - 1]);
    }
  }

  lemma EmptyMirrors(c: Codec, s: Store)
    requires s.files == map[]
    ensures Mirrors(c, s, map[])
  {}

  /**
   Without outside interference the store is that map: a lookup with no I/O failure hits exactly
   when the map holds an unexpired entry of the key, and the hit is that entry, the last one
   stored; nothing is ever rejected.
   */
  lemma AgreesWithMap(c: Codec, now: int, ops: seq<Op>, key: string, faults: Faults)
    requires c.RoundTrips() && Undisturbed(ops) && ValidKey(key)
    ensures var (s, _) := Run(c, Opened(map[], now), ops);
            var m := Model(c, Opened(map[], now), ops);
            var answer := GetStep(c, s, key, faults).1;
            && (answer.Hit? ==> key in m && answer.e == m[key])
            && (!s.disabled && !faults.stat && !faults.read ==>
                (answer.Hit? <==> key in m && m[key].recordedAt.Some? && !TooOld(m[key], s.now)))
            && !answer.Rejected?
  {
    var s, m := Run(c, Opened(map[], now), ops).0, Model(c, Opened(map[], now), ops);
    RunMirrors(c, now, ops);
    if key in m {
      hide ValidEntry, ReadEntry;
      MirrorRead(c, s, m, key);
      ValidIsTimed(c, m[key], m[key].key);
    }
  }

  /** The entry a key has in the map is that of the last successful store of the key. */
  lemma {:induction false} ModelIsLastPut(c: Codec, s: Store, ops: seq<Op>, key: string)
    requires key in Model(c, s, ops)
    ensures exists k :: 0 <= k < |ops| && ops[k].Put? && ops[k].e.key == key && ops[k].e == Model(c, s, ops)[key]
                        && |Run(c, s, ops).1| == |ops| && Run(c, s, ops).1[k].PutDone?
                        && forall j :: k < j < |ops| && ops[j].Put? && ops[j].e.key == key ==> !Run(c, s, ops).1[j].PutDone?
    decreases |ops|
  {
    hide PutStep, GetStep, DeleteStep;
    var n := |ops| - 1;
    var before, last := ops[..n], ops[n];
    var answer := StoreStep(c, Run(c, s, before).0, last).1;
    RunSize(c, s, ops);
    RunSize(c, s, before);
    var answers := Run(c, s, ops).1;
    assert answers == Run(c, s, before).1 + [answer];
    if last.Put? && last.e.key == key && answer.PutDone? {
      assert ops[n].Put? && answers[n].PutDone?;
    } else {
      ModelIsLastPut(c, s, before, key);
      var k :| 0 <= k < n && before[k].Put? && before[k].e.key == key && before[k].e == Model(c, s, before)[key]
               && Run(c, s, before).1[k].PutDone?
               && forall j :: k < j < n && before[j].Put? && before[j].e.key == key ==> !Run(c, s, before).1[j].PutDone?;
      forall j | k < j < |ops| && ops[j].Put? && ops[j].e.key == key
        ensures !answers[j].PutDone?
      {
        if j < n {
          assert before[j] == ops[j] && Run(c, s, before).1[j] == answers[j];
        }
      }
      assert ops[k] == before[k] && answers[k] == Run(c, s, before).1[k];
    }
  }
}
