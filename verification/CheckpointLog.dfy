/** The durable checkpoint store: an append-only file of one JSON record per line, replayed into a
    map when the store is opened. */
module CheckpointLog {
  import opened Words

  const NEWLINE: u8 := 10

  datatype Record<S> = Save(task: string, snapshot: S) | Remove(task: string)

  /** The fields of a parsed line that the store looks at. */
  datatype Line<S> = Line(sequence: int, task: string, deleted: bool, snapshot: Option<S>)

  function LineOf<S>(i: nat, r: Record<S>): Line<S> {
    match r
    case Save(task, snapshot) => Line(i, task, false, Some(snapshot))
    case Remove(task) => Line(i, task, true, None)
  }

  /** JSON and UTF-8 as far as the store depends on them: how a record becomes the bytes of a line,
      and what a line parses to, if it does. */
  datatype Codec<!S> = Codec(encode: (nat, Record<S>) -> Bytes, decode: Bytes -> Option<Line<S>>)

  /** Parsing undoes printing, and no printed record contains a newline. */
  ghost predicate Faithful<S(!new)>(c: Codec<S>) {
    forall i: nat, r: Record<S> ::
      c.decode(c.encode(i, r)) == Some(LineOf(i, r)) && NEWLINE !in c.encode(i, r)
  }

  // --- what the calls mean ---

  function Apply<S>(m: map<string, S>, r: Record<S>): map<string, S> {
    match r
    case Save(task, snapshot) => m[task := snapshot]
    case Remove(task) => m - {task}
  }

  /** The map after all the records, oldest first. */
  function Replay<S>(log: seq<Record<S>>): map<string, S> {
    if log == [] then map[] else Apply(Replay(log[..|log| - 1]), log[|log| - 1])
  }

  /** The file after all the records. */
  function Written<S>(c: Codec<S>, log: seq<Record<S>>): Bytes {
    if log == [] then []
    else Written(c, log[..|log| - 1]) + c.encode(|log| - 1, log[|log| - 1]) + [NEWLINE]
  }

  ghost predicate Named<S>(log: seq<Record<S>>) {
    forall k | 0 <= k < |log| :: log[k].task != ""
  }

  // --- recovery, as the store does it ---

  function Split(b: Bytes): (lines: seq<Bytes>)
    ensures |lines| > 0
  {
    if b == [] then [[]]
    else
      var rest := Split(b[1..]);
      if b[0] == NEWLINE then [[]] + rest else [[b[0]] + rest[0]] + rest[1..]
  }

  /** One line at position `index`: refused, or applied. */
  function Accept<S>(c: Codec<S>, line: Bytes, index: nat, m: map<string, S>): Option<map<string, S>> {
    match c.decode(line)
    case None => None
    case Some(l) =>
      if l.sequence != index || l.task == "" then None
      else if l.deleted then Some(m - {l.task})
      else if l.snapshot.Some? then Some(m[l.task := l.snapshot.value])
      else None
  }

  function AcceptAll<S>(c: Codec<S>, lines: seq<Bytes>, index: nat, m: map<string, S>): Option<map<string, S>>
    decreases |lines|
  {
    if lines == [] then Some(m)
    else
      var next := Accept(c, lines[0], index, m);
      if next.None? then None else AcceptAll(c, lines[1..], index + 1, next.value)
  }

  datatype Recovered<S> = Recovered(records: map<string, S>, sequence: nat)

  function Recover<S>(c: Codec<S>, file: Bytes): Option<Recovered<S>> {
    if file == [] then Some(Recovered(map[], 0))
    else if file[|file| - 1] != NEWLINE then None
    else
      var lines := Split(file[..|file| - 1]);
      var m := AcceptAll(c, lines, 0, map[]);
      if m.None? then None else Some(Recovered(m.value, |lines|))
  }

  // --- lines come back as written ---

  lemma {:induction false} SplitPlain(a: Bytes)
    requires NEWLINE !in a
    ensures Split(a) == [a]
  {
    if a != [] {
      SplitPlain(a[1..]);
      assert [a[0]] + a[1..] == a;
    }
  }

  lemma {:induction false} SplitAt(a: Bytes, b: Bytes)
    ensures Split(a + [NEWLINE] + b) == Split(a) + Split(b)
    decreases |a|
  {
    var whole := a + [NEWLINE] + b;
    if a == [] {
      assert whole[1..] == b;
      assert Split(whole) == [[]] + Split(b);
    } else {
      assert whole[1..] == a[1..] + [NEWLINE] + b;
      SplitAt(a[1..], b);
    }
  }

  /** The lines of a written file. */
  function Encoded<S>(c: Codec<S>, log: seq<Record<S>>): seq<Bytes> {
    seq(|log|, i requires 0 <= i < |log| => c.encode(i, log[i]))
  }

  lemma {:induction false} SplitWritten<S(!new)>(c: Codec<S>, log: seq<Record<S>>)
    requires Faithful(c) && log != []
    ensures var f := Written(c, log);
            f != [] && f[|f| - 1] == NEWLINE && Split(f[..|f| - 1]) == Encoded(c, log)
    decreases |log|
  {
    var n := |log| - 1;
    var f, front, last := Written(c, log), Written(c, log[..n]), c.encode(n, log[n]);
    assert f[..|f| - 1] == front + last;
    assert NEWLINE !in last;
    SplitPlain(last);
    if n > 0 {
      SplitWritten(c, log[..n]);
      assert front == front[..|front| - 1] + [NEWLINE];
      assert front + last == front[..|front| - 1] + [NEWLINE] + last;
      SplitAt(front[..|front| - 1], last);
      assert Encoded(c, log) == Encoded(c, log[..n]) + [last];
    } else {
      assert front + last == last;
      assert Encoded(c, log) == [last];
    }
  }

  lemma {:induction false} AcceptAllAppend<S>(c: Codec<S>, lines: seq<Bytes>, line: Bytes, index: nat,
                                              m: map<string, S>)
    requires AcceptAll(c, lines, index, m).Some?
    ensures AcceptAll(c, lines + [line], index, m)
            == Accept(c, line, index + |lines|, AcceptAll(c, lines, index, m).value)
    decreases |lines|
  {
    if lines == [] {
      assert [line][1..] == [];
    } else {
      assert (lines + [line])[1..] == lines[1..] + [line];
      AcceptAllAppend(c, lines[1..], line, index + 1, Accept(c, lines[0], index, m).value);
    }
  }

  lemma {:induction false} AcceptsWritten<S(!new)>(c: Codec<S>, log: seq<Record<S>>)
    requires Faithful(c) && Named(log)
    ensures AcceptAll(c, Encoded(c, log), 0, map[]) == Some(Replay(log))
    decreases |log|
  {
    if log != [] {
      var n := |log| - 1;
      AcceptsWritten(c, log[..n]);
      var line := c.encode(n, log[n]);
      assert Encoded(c, log) == Encoded(c, log[..n]) + [line];
      AcceptAllAppend(c, Encoded(c, log[..n]), line, 0, map[]);
      assert c.decode(line) == Some(LineOf(n, log[n]));
    }
  }

  /** Reopening an intact file gives back exactly the map and the next sequence number. */
  lemma RecoversWritten<S(!new)>(c: Codec<S>, log: seq<Record<S>>)
    requires Faithful(c) && Named(log)
    ensures Recover(c, Written(c, log)) == Some(Recovered(Replay(log), |log|))
  {
    if log != [] {
      SplitWritten(c, log);
      AcceptsWritten(c, log);
    }
  }

  // --- any byte prefix ---

  lemma NewlineIsTheLast(front: Bytes, last: Bytes, p: Bytes)
    requires p <= front + last + [NEWLINE] && |p| > |front| && NEWLINE !in last && p[|p| - 1] == NEWLINE
    ensures p == front + last + [NEWLINE]
  {
    forall i | |front| <= i < |front| + |last| ensures (front + last + [NEWLINE])[i] != NEWLINE {
      assert (front + last + [NEWLINE])[i] == last[i - |front|];
    }
  }

  /** A prefix of a written file that ends in a newline ends with a whole record. */
  lemma {:induction false} PrefixEndsWithRecord<S(!new)>(c: Codec<S>, log: seq<Record<S>>, p: Bytes) returns (k: nat)
    requires Faithful(c) && p <= Written(c, log) && p != [] && p[|p| - 1] == NEWLINE
    ensures k <= |log| && p == Written(c, log[..k])
    decreases |log|
  {
    var n := |log| - 1;
    var front, last := Written(c, log[..n]), c.encode(n, log[n]);
    if |p| <= |front| {
      k := PrefixEndsWithRecord(c, log[..n], p);
      assert log[..n][..k] == log[..k];
    } else {
      assert log != [] && NEWLINE !in last;
      NewlineIsTheLast(front, last, p);
      k := |log|;
      assert log[..k] == log;
    }
  }

  /** Reopening on any byte prefix of a written file either refuses, exactly when the tail is cut
      inside a record, or yields the map after some whole number of completed calls, with the
      numbering ready to go on from there. */
  lemma AnyPrefixReopens<S(!new)>(c: Codec<S>, log: seq<Record<S>>, p: Bytes)
    requires Faithful(c) && Named(log) && p <= Written(c, log)
    ensures Recover(c, p) == None <==> p != [] && p[|p| - 1] != NEWLINE
    ensures Recover(c, p).Some? ==>
              exists k: nat :: k <= |log| && p == Written(c, log[..k])
                               && Recover(c, p) == Some(Recovered(Replay(log[..k]), k))
  {
    if p == [] {
      assert log[..0] == [];
      assert p == Written(c, log[..0]) && Recover(c, p) == Some(Recovered(Replay(log[..0]), 0));
    } else if p[|p| - 1] == NEWLINE {
      var k := PrefixEndsWithRecord(c, log, p);
      RecoversWritten(c, log[..k]);
    }
  }

  // --- the store ---

  class DurableCheckpointStore<S(!new)> {
    const codec: Codec<S>
    var file: Bytes
    var records: map<string, S>
    var sequence: nat
    var isOpen: bool
    ghost var log: seq<Record<S>>

    ghost predicate Valid()
      reads this
    {
      && Named(log) && file == Written(codec, log) && records == Replay(log) && sequence == |log|
    }

    constructor (codec: Codec<S>)
      ensures Valid() && isOpen && log == [] && this.codec == codec
    {
      this.codec := codec;
      file, records, sequence, isOpen, log := [], map[], 0, true, [];
    }

    /** Open whatever bytes are on disk: a store, or nothing when recovery throws.  `history` is
        what the file's writer had done; a crash may have left any prefix of it. */
    static method Open(codec: Codec<S>, bytes: Bytes, ghost history: seq<Record<S>>)
      returns (store: DurableCheckpointStore?<S>)
      requires Faithful(codec) && Named(history) && bytes <= Written(codec, history)
      ensures store == null <==> bytes != [] && bytes[|bytes| - 1] != NEWLINE
      ensures store != null ==>
                && fresh(store) && store.codec == codec && store.Valid() && store.isOpen
                && store.file == bytes && store.log <= history
    {
      AnyPrefixReopens(codec, history, bytes);
      var recovered := ReadBack(codec, bytes);
      if recovered.None? {
        return null;
      }
      store := new DurableCheckpointStore(codec);
      ghost var k: nat :| k <= |history| && bytes == Written(codec, history[..k])
                          && Recover(codec, bytes) == Some(Recovered(Replay(history[..k]), k));
      store.file, store.records, store.sequence := bytes, recovered.value.records, recovered.value.sequence;
      store.log := history[..k];
    }

    /** The recovery loop, line by line. */
    static method ReadBack(codec: Codec<S>, bytes: Bytes) returns (r: Option<Recovered<S>>)
      ensures r == Recover(codec, bytes)
    {
      if bytes == [] {
        return Some(Recovered(map[], 0));
      }
      if bytes[|bytes| - 1] != NEWLINE {
        return None;
      }
      var lines := Split(bytes[..|bytes| - 1]);
      var found: map<string, S> := map[];
      for index := 0 to |lines|
        invariant AcceptAll(codec, lines, 0, map[]) == AcceptAll(codec, lines[index..], index, found)
      {
        assert lines[index..][1..] == lines[index + 1..];
        var next := Accept(codec, lines[index], index, found);
        if next.None? {
          return None;
        }
        found := next.value;
      }
      assert lines[|lines|..] == [];
      r := Some(Recovered(found, |lines|));
    }

    /** Append one line and count it. */
    method Append(record: Record<S>)
      requires Valid() && isOpen && record.task != ""
      modifies this`file, this`sequence, this`log
      ensures log == old(log) + [record] && file == Written(codec, log) && sequence == |log| && Named(log)
    {
      file := file + codec.encode(sequence, record) + [NEWLINE];
      sequence := sequence + 1;
      log := log + [record];
      assert log[..|log| - 1] == old(log);
    }

    method SaveSnapshot(task: string, snapshot: S) returns (ok: bool)
      requires Valid()
      modifies this
      ensures Valid() && isOpen == old(isOpen)
      ensures ok == (task != "" && old(isOpen))
      ensures log == if ok then old(log) + [Save(task, snapshot)] else old(log)
      ensures records == if ok then old(records)[task := snapshot] else old(records)
    {
      if task == "" || !isOpen {
        return false;
      }
      Append(Save(task, snapshot));
      records := records[task := snapshot];
      assert log[..|log| - 1] == old(log);
      ok := true;
    }

    method RemoveSnapshot(task: string) returns (removed: bool)
      requires Valid()
      modifies this
      ensures Valid() && isOpen == old(isOpen)
      ensures removed == (task in old(records) && old(isOpen))
      ensures log == if removed then old(log) + [Remove(task)] else old(log)
      ensures records == old(records) - if removed then {task} else {}
    {
      if task !in records || !isOpen {
        return false;
      }
      RecordsNamed(log, task);
      Append(Remove(task));
      records := records - {task};
      assert log[..|log| - 1] == old(log);
      removed := true;
    }

    method Load(task: string) returns (snapshot: Option<S>)
      requires Valid()
      ensures snapshot == if task in Replay(log) then Some(Replay(log)[task]) else None
    {
      snapshot := if task in records then Some(records[task]) else None;
    }

    method Close()
      modifies this`isOpen
      ensures !isOpen
    {
      isOpen := false;
    }
  }

  lemma {:induction false} RecordsNamed<S>(log: seq<Record<S>>, task: string)
    requires Named(log) && task in Replay(log)
    ensures task != ""
    decreases |log|
  {
    var n := |log| - 1;
    if task in Replay(log[..n]) {
      RecordsNamed(log[..n], task);
    }
  }
}
