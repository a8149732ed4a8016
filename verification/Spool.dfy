/** The durable record spool (src/spool.rs).

    A directory is a map from file names to files; writing a record is one atomic rename.  A file's
    bytes are abstract: they either decode to a valid envelope or they do not. */
module Spool {
  import opened Prelude
  import opened Telemetry

  datatype File = File(content: Option<Envelope>, bytes: nat, modifiedSecs: nat)

  type Directory = map<string, File>

  datatype SequenceFile = Missing | Holds(last: nat) | Garbled

  /** Every file is named after a u64 sequence, and what can be read from it carries that sequence. */
  ghost predicate WellNamed(records: Directory) {
    forall name | name in records ::
      exists s: nat :: s < TWO_64 && name == FileName(s)
                       && (records[name].content.Some? ==> records[name].content.value.sequence == s)
  }

  /** The directory as a table of sequence numbers. */
  ghost function Stored(records: Directory): map<nat, File> {
    map s: nat | s < TWO_64 && FileName(s) in records :: records[FileName(s)]
  }

  // ---- Sizes ------------------------------------------------------------------------------------------

  ghost function Total(records: Directory): nat {
    if records == map[] then 0 else
    var name :| name in records;
    records[name].bytes + Total(records - {name})
  }

  lemma {:induction false} TotalRemove(records: Directory, name: string)
    requires name in records
    ensures Total(records) == records[name].bytes + Total(records - {name})
    decreases |records|
  {
    var picked :| picked in records && Total(records) == records[picked].bytes + Total(records - {picked});
    if picked != name {
      var rest := records - {picked};
      TotalRemove(rest, name);
      TotalRemove(records - {name}, picked);
      assert rest - {name} == records - {name} - {picked};
    }
  }

  lemma TotalInsert(records: Directory, name: string, file: File)
    requires name !in records
    ensures Total(records[name := file]) == Total(records) + file.bytes
  {
    TotalRemove(records[name := file], name);
    assert records[name := file] - {name} == records;
  }

  lemma {:induction false} TotalShrinks(records: Directory, names: set<string>)
    ensures Total(records - names) <= Total(records)
    decreases |records|
  {
    hide Total;
    if name :| name in records && name in names {
      TotalRemove(records, name);
      TotalShrinks(records - {name}, names);
      assert records - {name} - names == records - names;
    } else {
      assert records - names == records;
    }
  }

  predicate Expired(file: File, now: nat, maxAgeSecs: nat) {
    now > file.modifiedSecs && now - file.modifiedSecs > maxAgeSecs
  }

  /** Whether `append` takes a record of `size` bytes. */
  ghost predicate Accepts(records: Directory, maxBytes: nat, maxAgeSecs: nat, e: Envelope, size: nat, now: nat) {
    && ValidEnvelope(e)
    && (forall name | name in records :: !Expired(records[name], now, maxAgeSecs))
    && SaturatingAdd(Saturated(Total(records)), size) <= maxBytes
    && FileName(e.sequence) !in records
  }

  function Saturated(n: nat): nat {
    if n > MAX_U64 then MAX_U64 else n
  }

  /** The saturating check is the true one, except when the limit is the largest u64 itself. */
  lemma CapacityCheckExact(total: nat, size: nat, maxBytes: nat)
    requires total <= maxBytes <= MAX_U64 && SaturatingAdd(Saturated(total), size) <= maxBytes
    ensures total + size <= maxBytes <==> maxBytes < MAX_U64 || total + size <= MAX_U64
  {
  }

  // ---- Reading in order -----------------------------------------------------------------------------------

  predicate Ascending(keys: seq<nat>) {
    forall i, j :: 0 <= i < j < |keys| ==> keys[i] < keys[j]
  }

  /** `keys` are the `limit` smallest sequence numbers of the table, in order. */
  ghost predicate Picked<T>(table: map<nat, T>, limit: nat, keys: seq<nat>) {
    && Ascending(keys)
    && (forall k | k in keys :: k in table)
    && (forall k, s | k in keys && s in table && s < k :: s in keys)
    && |keys| <= limit
    && (|keys| < limit ==> forall s | s in table :: s in keys)
  }

  ghost function Readable(table: map<nat, File>, keys: seq<nat>): seq<Envelope>
    requires forall k | k in keys :: k in table
  {
    if keys == [] then [] else
    var last := keys[|keys| - 1];
    Readable(table, keys[..|keys| - 1]) + if table[last].content.Some? then [table[last].content.value] else []
  }

  /** The names of the files among `names` that cannot be read. */
  ghost function Unreadable(records: Directory, names: seq<string>): (corrupt: set<string>)
    ensures corrupt <= records.Keys
  {
    set name | name in names && name in records && records[name].content.None?
  }

  ghost function FileNames(keys: seq<nat>): seq<string> {
    seq(|keys|, i requires 0 <= i < |keys| => FileName(keys[i]))
  }

  predicate LexAscending(names: seq<string>) {
    forall i, j :: 0 <= i < j < |names| ==> LexLess(names[i], names[j])
  }

  /** The sequence numbers of names in byte order are in numeric order. */
  lemma NamesToKeys(records: Directory, names: seq<string>, limit: nat) returns (keys: seq<nat>)
    requires WellNamed(records) && LexAscending(names) && (forall n | n in names :: n in records)
    requires forall n, m | n in names && m in records && m !in names :: LexLess(n, m)
    requires |names| <= limit && (|names| < limit ==> forall n | n in records :: n in names)
    ensures |keys| == |names| && forall i | 0 <= i < |keys| :: keys[i] < TWO_64 && names[i] == FileName(keys[i])
    ensures names == FileNames(keys)
    ensures Picked(Stored(records), limit, keys) && forall k | k in keys :: k in Stored(records)
  {
    hide FileName, LexLess;
    keys := KeysOf(records, names);
    assert names == FileNames(keys);
    forall i, j | 0 <= i < j < |keys|
      ensures keys[i] < keys[j]
    {
      FileNameOrder(keys[i], keys[j]);
    }
    var table := Stored(records);
    forall k, s | k in keys && s in table && s < k
      ensures s in keys
    {
      FileNameOrder(s, k);
      FileNameOrder(k, s);
      KeyListed(names, keys, s);
    }
    if |keys| < limit {
      forall s | s in table
        ensures s in keys
      {
        KeyListed(names, keys, s);
      }
    }
  }

  lemma KeyListed(names: seq<string>, keys: seq<nat>, s: nat)
    requires |keys| == |names| && forall i | 0 <= i < |keys| :: keys[i] < TWO_64 && names[i] == FileName(keys[i])
    requires s < TWO_64 && FileName(s) in names
    ensures s in keys
  {
    hide FileName, LexLess;
    var i :| 0 <= i < |names| && names[i] == FileName(s);
    FileNameOrder(keys[i], s);
  }

  lemma {:induction false} KeysOf(records: Directory, names: seq<string>) returns (keys: seq<nat>)
    requires WellNamed(records) && forall n | n in names :: n in records
    ensures |keys| == |names| && forall i | 0 <= i < |keys| :: keys[i] < TWO_64 && names[i] == FileName(keys[i])
  {
    hide FileName;
    if names == [] {
      keys := [];
    } else {
      var n := |names| - 1;
      keys := KeysOf(records, names[..n]);
      assert names[n] in records;
      var s: nat :| s < TWO_64 && names[n] == FileName(s);
      keys := keys + [s];
    }
  }

  // ---- The spool object ------------------------------------------------------------------------------------

  class DiskSpool {
    const maxBytes: nat
    const maxAgeSecs: nat
    var records: Directory
    var quarantine: Directory
    var sequence: SequenceFile

    constructor (maxBytes: nat, maxAgeSecs: nat)
      requires 0 < maxBytes <= MAX_U64 && maxAgeSecs > 0
      ensures this.maxBytes == maxBytes && this.maxAgeSecs == maxAgeSecs
      ensures records == map[] && quarantine == map[] && sequence == Missing
    {
      this.maxBytes, this.maxAgeSecs := maxBytes, maxAgeSecs;
      records, quarantine, sequence := map[], map[], Missing;
    }

    /** The number handed out is on disk before it is used, and is above every earlier one. */
    method NextSequence() returns (next: Result<nat, string>)
      modifies this`sequence
      ensures next.Ok? ==> sequence == Holds(next.value) && next.value < TWO_64
      ensures next.Ok? ==> next.value == match old(sequence) case Holds(n) => n + 1 case _ => 1
      ensures next.Err? ==> sequence == old(sequence)
      ensures next.Err? <==> old(sequence).Garbled? || (old(sequence).Holds? && old(sequence).last >= MAX_U64)
    {
      var current := 0;
      match sequence {
        case Garbled => return Err("invalid spool sequence state");
        case Holds(n) => current := n;
        case Missing =>
      }
      if current >= MAX_U64 {
        return Err("telemetry sequence exhausted");
      }
      sequence := Holds(current + 1);
      next := Ok(current + 1);
    }

    /** Adds up the records as `stats_unlocked` does; `Err` on an expired one. */
    method Stats(now: nat) returns (bytes: Result<nat, string>)
      ensures bytes.Ok? <==> forall name | name in records :: !Expired(records[name], now, maxAgeSecs)
      ensures bytes.Ok? ==> bytes.value == Saturated(Total(records))
    {
      var pending, sum := records.Keys, 0;
      assert records - pending == map[];
      while pending != {}
        invariant pending <= records.Keys
        invariant sum == Saturated(Total(records - pending))
        invariant forall name | name in records && name !in pending :: !Expired(records[name], now, maxAgeSecs)
        decreases pending
      {
        var name :| name in pending;
        TotalInsert(records - pending, name, records[name]);
        assert records - (pending - {name}) == (records - pending)[name := records[name]];
        sum := SaturatingAdd(sum, records[name].bytes);
        pending := pending - {name};
        if Expired(records[name], now, maxAgeSecs) {
          return Err("telemetry spool contains expired record");
        }
      }
      assert records - {} == records;
      bytes := Ok(sum);
    }

    /** A refused record leaves no trace; an accepted one is added and nothing else changes. */
    method Append(e: Envelope, size: nat, now: nat) returns (accepted: bool)
      modifies this`records
      ensures accepted <==> old(Accepts(records, maxBytes, maxAgeSecs, e, size, now))
      ensures maxBytes < MAX_U64 ==>
                (accepted <==>
                   && ValidEnvelope(e) && FileName(e.sequence) !in old(records)
                   && old(Total(records)) + size <= maxBytes
                   && forall name | name in old(records) :: now <= old(records)[name].modifiedSecs + maxAgeSecs)
      ensures records == if accepted then old(records)[FileName(e.sequence) := File(Some(e), size, now)] else old(records)
      ensures old(Total(records)) <= maxBytes < MAX_U64 ==> Total(records) <= maxBytes
      ensures old(WellNamed(records)) && e.sequence < TWO_64 ==> WellNamed(records)
    {
      hide FileName;
      if !ValidEnvelope(e) {
        return false;
      }
      var used := Stats(now);
      if used.Err? || SaturatingAdd(used.value, size) > maxBytes || FileName(e.sequence) in records {
        return false;
      }
      TotalInsert(records, FileName(e.sequence), File(Some(e), size, now));
      records := records[FileName(e.sequence) := File(Some(e), size, now)];
      accepted := true;
    }

    /** All record names in byte order. */
    method SortedNames() returns (names: seq<string>)
      ensures LexAscending(names) && forall n :: n in names <==> n in records
    {
      names := [];
      var pending := records.Keys;
      while pending != {}
        invariant pending <= records.Keys && LexAscending(names)
        invariant forall n | n in records :: n in names <==> n !in pending
        invariant forall n | n in names :: n in records
        invariant forall n, m | n in names && m in pending :: LexLess(n, m)
        decreases pending
      {
        var least := Least(pending);
        names, pending := names + [least], pending - {least};
      }
    }

    static method Least(pending: set<string>) returns (least: string)
      requires pending != {}
      ensures least in pending && forall n | n in pending && n != least :: LexLess(least, n)
    {
      least :| least in pending;
      var rest := pending - {least};
      while rest != {}
        invariant rest <= pending && least in pending
        invariant forall n | n in pending && n !in rest && n != least :: LexLess(least, n)
        decreases rest
      {
        var n :| n in rest;
        rest := rest - {n};
        if n != least {
          LexTotal(n, least);
        }
        if LexLess(n, least) {
          forall m | m in pending && m !in rest && m != n && m != least
            ensures LexLess(n, m)
          {
            LexTransitive(n, least, m);
          }
          least := n;
        }
      }
    }

    /** Returns the readable ones among the `limit` oldest records, oldest first, and moves the
        unreadable ones among them to quarantine. */
    method Pending(limit: nat) returns (batch: seq<Envelope>, ghost keys: seq<nat>)
      requires WellNamed(records)
      modifies this`records, this`quarantine
      ensures Picked(Stored(old(records)), limit, keys)
      ensures batch == Readable(Stored(old(records)), keys)
      ensures var corrupt := Unreadable(old(records), FileNames(keys));
              records == old(records) - corrupt
              && forall name | name in corrupt :: name in quarantine && quarantine[name] == old(records)[name]
    {
      hide FileName, FileNames, LexLess, Stored, Picked, Readable, WellNamed, Unreadable;
      var names := SortedNames();
      if |names| > limit {
        names := names[..limit];
      }
      keys := NamesToKeys(records, names, limit);
      ghost var was, table := records, Stored(records);
      batch := [];
      NothingRead(was, table, names, keys);
      for i := 0 to |names|
        invariant batch == Readable(table, keys[..i])
        invariant records == was - Unreadable(was, names[..i])
        invariant forall name | name in Unreadable(was, names[..i]) :: name in quarantine && quarantine[name] == was[name]
      {
        NotYetMoved(was, names, i);
        OneMore(was, names, keys, i);
        var content := ReadRecord(names[i]);
        if content.Some? {
          batch := batch + [content.value];
        }
      }
      assert keys[..|names|] == keys && names[..|names|] == names;
    }

    /** Reads one record, moving it to quarantine when it does not decode to a valid envelope. */
    method ReadRecord(name: string) returns (content: Option<Envelope>)
      requires name in records
      modifies this`records, this`quarantine
      ensures content == old(records)[name].content
      ensures records == if content.None? then old(records) - {name} else old(records)
      ensures quarantine == if content.None? then old(quarantine)[name := old(records)[name]] else old(quarantine)
    {
      content := records[name].content;
      if content.None? {
        records, quarantine := records - {name}, quarantine[name := records[name]];
      }
    }

    static lemma NothingRead(records: Directory, table: map<nat, File>, names: seq<string>, keys: seq<nat>)
      ensures Readable(table, keys[..0]) == [] && records - Unreadable(records, names[..0]) == records
      ensures Unreadable(records, names[..0]) == {}
    {
    }

    /** Reading one more of the picked names adds its record to the batch or to the unreadable ones. */
    static lemma OneMore(records: Directory, names: seq<string>, keys: seq<nat>, i: nat)
      requires |keys| == |names| && i < |names| && names[i] in records
      requires keys[i] < TWO_64 && names[i] == FileName(keys[i])
      requires forall k | k in keys :: k in Stored(records)
      ensures forall k | k in keys[..i] || k in keys[..i + 1] :: k in Stored(records)
      ensures Readable(Stored(records), keys[..i + 1]) == Readable(Stored(records), keys[..i])
              + if records[names[i]].content.Some? then [records[names[i]].content.value] else []
      ensures Unreadable(records, names[..i + 1])
              == Unreadable(records, names[..i]) + if records[names[i]].content.None? then {names[i]} else {}
    {
      hide FileName;
      assert keys[..i + 1][..i] == keys[..i];
      assert names[..i + 1] == names[..i] + [names[i]];
    }

    static lemma NotYetMoved(records: Directory, names: seq<string>, i: nat)
      requires LexAscending(names) && i < |names|
      ensures names[i] !in Unreadable(records, names[..i])
    {
      forall j | 0 <= j < i
        ensures names[j] != names[i]
      {
        LexIrreflexive(names[i]);
      }
    }

    /** Removes the records one by one and stops at the first that is already gone. */
    method Acknowledge(batch: seq<Envelope>) returns (ok: bool, ghost removed: nat)
      modifies this`records
      ensures removed <= |batch| && (ok <==> removed == |batch|)
      ensures records == old(records) - Names(batch[..removed])
      ensures forall i | 0 <= i < removed :: FileName(batch[i].sequence) in old(records) - Names(batch[..i])
      ensures !ok ==> FileName(batch[removed].sequence) !in records
      ensures Total(records) <= old(Total(records))
    {
      hide FileName;
      removed := 0;
      assert records - Names(batch[..0]) == records;
      for i := 0 to |batch|
        invariant removed == i && records == old(records) - Names(batch[..i])
        invariant forall j | 0 <= j < i :: FileName(batch[j].sequence) in old(records) - Names(batch[..j])
      {
        var name := FileName(batch[i].sequence);
        if name !in records {
          TotalShrinks(old(records), Names(batch[..i]));
          return false, removed;
        }
        NamesGrow(batch, i);
        records, removed := records - {name}, i + 1;
      }
      TotalShrinks(old(records), Names(batch[..removed]));
      ok := true;
    }

    static lemma NamesGrow(batch: seq<Envelope>, i: nat)
      requires i < |batch|
      ensures Names(batch[..i + 1]) == Names(batch[..i]) + {FileName(batch[i].sequence)}
    {
      hide FileName;
      assert batch[..i + 1] == batch[..i] + [batch[i]];
    }

    static ghost function Names(batch: seq<Envelope>): set<string> {
      set e | e in batch :: FileName(e.sequence)
    }
  }
}
