/** What each cache operation answers. */
module Served {
  import opened Json
  import opened Records
  import opened Cache

  // ----- an entry that may be served -----

  predicate IsHex(s: string) {
    forall k :: 0 <= k < |s| ==> '0' <= s[k] <= '9' || 'a' <= s[k] <= 'f'
  }

  /** A run or check as it is recorded: at most 128 letters, digits, dots, underscores, colons and dashes. */
  predicate IsLabel(s: string) {
    |s| <= 128 && forall k :: 0 <= k < |s| ==>
      'A' <= s[k] <= 'Z' || 'a' <= s[k] <= 'z' || '0' <= s[k] <= '9' || s[k] == '.' || s[k] == '_' || s[k] == ':' || s[k] == '-'
  }

  /** An outcome of a test process, recorded within the last 30 days and no more than five minutes ahead. */
  predicate IsUsable(c: Codec, e: Entry, key: string) {
    && |key| == 64 && IsHex(key) && e.key == key && c.sha(e.preimage) == key && c.preimage(e.preimage)
    && ((e.status == "PASS" && e.exitCode == 0) || (e.status == "FAIL" && 1 <= e.exitCode <= 124))
    && 0 <= e.durationMS <= 24 * 60 * 60 * 1000 && 1 <= e.liveRuns <= 1024 * 1024
    && |e.output| <= 4 * 1024 * 1024 && |e.payload| <= 4 * 1024 * 1024 + 64
    && e.recordedAt.Some? && IsLabel(e.recordedRun) && IsLabel(e.recordedCheck)
  }

  const MINUTE: int := 60 * 1_000_000_000
  const DAY: int := 24 * 60 * MINUTE

  predicate Ahead(e: Entry, now: int) {
    e.recordedAt.Some? && e.recordedAt.value > now + 5 * MINUTE
  }

  predicate Aged(e: Entry, now: int) {
    e.recordedAt.Some? && now - e.recordedAt.value > 30 * DAY
  }

  lemma LabelIs(s: string)
    ensures IsProvenance(s) <==> IsLabel(s)
  {
    assert "._:-" == ['.', '_', ':', '-'];
  }

  lemma KeyIs(key: string)
    ensures ValidKey(key) <==> |key| == 64 && IsHex(key)
  {}

  lemma UsableIs(c: Codec, e: Entry, key: string)
    ensures ValidEntry(c, e, key) <==> IsUsable(c, e, key)
  {
    hide IsProvenance, ValidKey, IsLabel, IsHex;
    LabelIs(e.recordedRun);
    LabelIs(e.recordedCheck);
    KeyIs(key);
  }

  // ----- the file of a key -----

  /** The file of a key holds an entry that may be served, fresh or not. */
  predicate HoldsEntry(c: Codec, f: File, key: string, now: int, e: Entry) {
    f.regular && |f.data| <= 16 * 1024 * 1024 && c.decode(f.data) == Some(e) && IsUsable(c, e, key) && !Ahead(e, now)
  }

  lemma ReadIs(c: Codec, f: File, key: string, now: int)
    ensures forall e :: ReadEntry(c, f, key, now) == Some(e) <==> HoldsEntry(c, f, key, now, e)
  {
    hide ValidEntry, IsUsable;
    forall e
      ensures ValidEntry(c, e, key) <==> IsUsable(c, e, key)
      ensures IsUsable(c, e, key) ==> e.recordedAt.Some?
    {
      UsableIs(c, e, key);
      UsableIsDated(c, e, key);
    }
  }

  lemma UsableIsDated(c: Codec, e: Entry, key: string)
    ensures IsUsable(c, e, key) ==> e.recordedAt.Some?
  {}

  /** What a lookup needs before it looks at an entry. */
  predicate Looks(s: Store, key: string, faults: Faults) {
    && !s.disabled && |key| == 64 && IsHex(key) && !faults.stat && key in s.files
    && !(faults.read && s.files[key].regular && |s.files[key].data| <= 16 * 1024 * 1024)
  }

  /**
   What a lookup answers: a hit exactly for a fresh usable entry, which also ends a streak of failures; an
   expired entry and a file that holds no usable entry are removed if they can be, and counted;
   everything else leaves the files alone.
   */
  lemma {:induction false} GetExact(c: Codec, s: Store, key: string, faults: Faults)
    ensures var (t, a) := StoreStep(c, s, Get(key, faults));
            && (forall e :: a == Hit(e) <==> Looks(s, key, faults) && HoldsEntry(c, s.files[key], key, s.now, e) && !Aged(e, s.now))
            && (a.Expired? <==> Looks(s, key, faults) && exists e :: HoldsEntry(c, s.files[key], key, s.now, e) && Aged(e, s.now))
            && (a.Rejected? <==> Looks(s, key, faults) && forall e :: !HoldsEntry(c, s.files[key], key, s.now, e))
            && t.files == (if (a.Expired? || a.Rejected?) && !faults.remove then s.files - {key} else s.files)
            && t.rejected == s.rejected + (if a.Rejected? then 1 else 0)
            && t.evicted == s.evicted + (if a.Expired? && !faults.remove then 1 else 0)
            && (a.Hit? ==> t.failures == 0) && t.puts == s.puts && t.putBytes == s.putBytes && t.now == s.now
  {
    hide ReadEntry, HoldsEntry, ValidKey, IsHex;
    KeyIs(key);
    if key in s.files {
      ReadIs(c, s.files[key], key, s.now);
      forall e
        ensures HoldsEntry(c, s.files[key], key, s.now, e) ==> e.recordedAt.Some?
      {
        HeldIsDated(c, s.files[key], key, s.now, e);
      }
    }
  }

  lemma HeldIsDated(c: Codec, f: File, key: string, now: int, e: Entry)
    ensures HoldsEntry(c, f, key, now, e) ==> e.recordedAt.Some?
  {}

  /** What a store answers: an entry that is usable and not from the future is written while the limits of a run allow it. */
  lemma {:induction false} PutExact(c: Codec, s: Store, e: Entry, faults: Faults)
    ensures var (t, a) := StoreStep(c, s, Put(e, faults));
            var admitted := !s.disabled && IsUsable(c, e, e.key) && !Ahead(e, s.now)
                            && s.puts < 256 && |c.encode(e)| <= 16 * 1024 * 1024 && s.putBytes + |c.encode(e)| <= 256 * 1024 * 1024;
            && (a.PutDone? <==> admitted && !faults.write) && (a.PutRefused? <==> !admitted) && (a.Failed? <==> admitted && faults.write)
            && t.files == (if a.PutDone? then s.files[e.key := File(true, c.encode(e))] else s.files)
            && t.puts == s.puts + (if a.PutDone? then 1 else 0)
            && t.putBytes == s.putBytes + (if a.PutDone? then |c.encode(e)| else 0)
            && t.rejected == s.rejected && t.evicted == s.evicted && t.now == s.now
  {
    hide ValidEntry, IsUsable;
    UsableIs(c, e, e.key);
    UsableIsDated(c, e, e.key);
  }

  /** What a deletion answers: the file is gone, unless its removal failed; a key that is none is ignored. */
  lemma {:induction false} DeleteExact(c: Codec, s: Store, key: string, faults: Faults)
    ensures var (t, a) := StoreStep(c, s, Delete(key, faults)); var isKey := |key| == 64 && IsHex(key);
            && (a.Failed? <==> isKey && faults.remove && (key in s.files || faults.stat)) && (a.Quiet? <==> !isKey)
            && (a.Deleted? ==> key !in t.files) && t.files - {key} == s.files - {key}
            && (!a.Deleted? ==> t.files == s.files)
  {
    KeyIs(key);
  }
}
