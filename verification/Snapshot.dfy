/**
 Reading a file that somebody else may be changing: the pinned candidate snapshot
 (snapshotCandidateTarball in scripts/install-channel.mjs) and the bounded read
 (boundedFileBytes in scripts/release-toolchain.mjs). Every read may be short, and what it delivers is
 whatever the file holds at that moment.
 */
module Snapshot {
  import opened Common
  import opened Bytes

  const MAX_CANDIDATE_BYTES: nat := 64 * 1024 * 1024
  const BUFFER: nat := 1024 * 1024

  type Digest = string

  datatype Stat = Stat(file: bool, device: nat, inode: nat, size: nat)

  predicate SameFile(a: Stat, b: Stat) { a.device == b.device && a.inode == b.inode && a.size == b.size }

  // The results of the successive reads, None where one fails; a read of nothing ends the file.
  type Reads = nat -> Option<Bytes>

  // Read number `i` into a buffer with room for `room` bytes.
  function Chunk(input: Reads, i: nat, room: nat): Option<Bytes>
  {
    match input(i)
    case None => None
    case Some(bytes) => Some(if |bytes| <= room then bytes else bytes[..room])
  }

  /** A read delivers what the file holds there, up to the room for it, or fails with it. */
  lemma ChunkIs(input: Reads, i: nat, room: nat)
    ensures var r := Chunk(input, i, room);
            && (r.Some? <==> input(i).Some?)
            && (r.Some? ==> r.value <= input(i).value && |r.value| <= room && (|r.value| < room ==> r.value == input(i).value))
  {
  }

  // ---------- the pinned snapshot ----------

  /**
   What the system calls of one snapshot return. `grants[k]` is how many bytes write number `k` accepts, None
   if it fails; a write may accept nothing. `sha256` is any function.
   */
  datatype Calls = Calls(before: Option<Stat>, creates: bool, input: Reads, grants: seq<Option<nat>>,
                         syncs: bool, after: Option<Stat>, removes: bool, sha256: Bytes -> Digest)

  // What reads of up to `buffer` bytes bring until the end of the file, unless one fails or there is more than `limit`.
  function Drain(input: Reads, i: nat, buffer: nat, limit: nat): (r: Option<Bytes>)
    ensures r.Some? ==> |r.value| <= limit
    decreases limit
  {
    match Chunk(input, i, buffer)
    case None => None
    case Some(chunk) =>
      if chunk == [] then Some([])
      else if |chunk| > limit then None
      else
        match Drain(input, i + 1, buffer, limit - |chunk|)
        case None => None
        case Some(rest) => Some(chunk + rest)
  }

  // The reads from `i` on deliver exactly `rest`, in pieces of any size, and then the end of the file.
  predicate Delivers(input: Reads, i: nat, buffer: nat, rest: Bytes)
    decreases |rest|
  {
    match Chunk(input, i, buffer)
    case None => false
    case Some(chunk) =>
      if chunk == [] then rest == [] else chunk <= rest && Delivers(input, i + 1, buffer, rest[|chunk|..])
  }

  lemma {:induction false} DrainIffDelivers(input: Reads, i: nat, buffer: nat, limit: nat, data: Bytes)
    ensures Drain(input, i, buffer, limit) == Some(data) <==> Delivers(input, i, buffer, data) && |data| <= limit
    decreases limit
  {
    hide Chunk;
    var chunk := Chunk(input, i, buffer);
    if chunk.Some? && chunk.value != [] && |chunk.value| <= limit {
      var c := chunk.value;
      if c <= data {
        DrainIffDelivers(input, i + 1, buffer, limit - |c|, data[|c|..]);
        assert data == c + data[|c|..];
      }
      var rest := Drain(input, i + 1, buffer, limit - |c|);
      if rest.Some? { assert (c + rest.value)[|c|..] == rest.value; }
    }
  }

  // One more piece in front of what is still to come.
  lemma DrainStep(input: Reads, i: nat, buffer: nat, limit: nat, before: Bytes)
    requires Chunk(input, i, buffer).Some?
    ensures var c := Chunk(input, i, buffer).value;
            if c == [] then Drain(input, i, buffer, limit) == Some([]) && before + [] == before
            else if |c| > limit then Drain(input, i, buffer, limit) == None
            else match Drain(input, i + 1, buffer, limit - |c|)
                 case None => Drain(input, i, buffer, limit) == None
                 case Some(rest) =>
                   Drain(input, i, buffer, limit) == Some(c + rest) && before + (c + rest) == (before + c) + rest
  {
    hide Chunk;
  }

  lemma DrainFails(input: Reads, i: nat, buffer: nat, limit: nat)
    requires Chunk(input, i, buffer).None?
    ensures Drain(input, i, buffer, limit) == None
  {
  }

  lemma NothingBefore(r: Option<Bytes>)
    ensures r.Some? ==> [] + r.value == r.value
  {
  }

  // `Writing`: all grants are used up and the copy is still at work.
  datatype Outcome = Returned | Thrown | Writing

  class Pin {
    var snapshot: Option<Bytes> // the snapshot file, if it exists
    var hashed: Bytes           // what the digest was fed
    var writes: nat

    constructor ()
      ensures snapshot == None && hashed == [] && writes == 0
    {
      snapshot, hashed, writes := None, [], 0;
    }

    // The inner loop: all of `chunk` is written, in pieces, unless a write fails. It goes on while writes accept nothing.
    method WriteChunk(calls: Calls, chunk: Bytes) returns (r: Outcome)
      requires snapshot.Some? && writes <= |calls.grants|
      modifies this`snapshot, this`writes
      ensures snapshot.Some? && old(writes) <= writes <= |calls.grants|
      ensures old(snapshot).value <= snapshot.value <= old(snapshot).value + chunk
      ensures r.Returned? ==> snapshot.value == old(snapshot).value + chunk
      ensures r.Thrown? <==> old(writes) < writes && calls.grants[writes - 1].None?
      ensures r.Writing? ==> writes == |calls.grants| && |snapshot.value| < |old(snapshot).value| + |chunk|
    {
      var offset := 0;
      while offset < |chunk|
        invariant 0 <= offset <= |chunk| && old(writes) <= writes <= |calls.grants|
        invariant snapshot.Some? && snapshot.value == old(snapshot).value + chunk[..offset]
        invariant old(writes) < writes ==> calls.grants[writes - 1].Some?
        decreases |calls.grants| - writes
      {
        if writes == |calls.grants| { return Writing; }
        var grant := calls.grants[writes];
        writes := writes + 1;
        if grant.None? { return Thrown; }
        var next := if grant.value < |chunk| - offset then offset + grant.value else |chunk|;
        assert chunk[..next] == chunk[..offset] + chunk[offset..next];
        snapshot := Some(snapshot.value + chunk[offset..next]);
        offset := next;
      }
      r := Returned;
    }

    // The copy loop, which ends whatever the file does: its total only grows, up to the limit.
    method Copy(calls: Calls) returns (r: Outcome)
      requires snapshot == Some([]) && hashed == [] && writes <= |calls.grants|
      modifies this
      ensures snapshot.Some? && writes <= |calls.grants|
      ensures r.Returned? ==>
                snapshot == Some(hashed) && Drain(calls.input, 0, BUFFER, MAX_CANDIDATE_BYTES) == Some(hashed) && |hashed| <= MAX_CANDIDATE_BYTES
      ensures r.Thrown? ==> Drain(calls.input, 0, BUFFER, MAX_CANDIDATE_BYTES).None? || None in calls.grants
      ensures r.Writing? ==> writes == |calls.grants|
    {
      hide Drain, Chunk;
      var total, i := 0, 0;
      NothingBefore(Drain(calls.input, 0, BUFFER, MAX_CANDIDATE_BYTES));
      while true
        invariant total == |hashed| <= MAX_CANDIDATE_BYTES && snapshot == Some(hashed) && writes <= |calls.grants|
        invariant match Drain(calls.input, i, BUFFER, MAX_CANDIDATE_BYTES - total)
                  case None => Drain(calls.input, 0, BUFFER, MAX_CANDIDATE_BYTES) == None
                  case Some(rest) => Drain(calls.input, 0, BUFFER, MAX_CANDIDATE_BYTES) == Some(hashed + rest)
        decreases MAX_CANDIDATE_BYTES - total
      {
        var chunk := Chunk(calls.input, i, BUFFER);
        if chunk.None? {
          DrainFails(calls.input, i, BUFFER, MAX_CANDIDATE_BYTES - total);
          return Thrown;
        }
        DrainStep(calls.input, i, BUFFER, MAX_CANDIDATE_BYTES - total, hashed);
        if chunk.value == [] { return Returned; }
        if total + |chunk.value| > MAX_CANDIDATE_BYTES { return Thrown; }
        hashed := hashed + chunk.value;
        r := WriteChunk(calls, chunk.value);
        if !r.Returned? { return; }
        total, i := total + |chunk.value|, i + 1;
      }
    }

    /**
     Whatever happens to the candidate meanwhile, a returned snapshot holds exactly the hashed bytes, their
     digest is the recorded one, and the limit holds; unless a write fails, or writes keep accepting nothing,
     it is returned exactly when the reads delivered that content. Nothing is left behind when it throws.
     */
    method SnapshotCandidateTarball(calls: Calls, recorded: Digest) returns (r: Outcome)
      requires snapshot == None && hashed == [] && writes == 0
      modifies this
      ensures r.Returned? ==> snapshot == Some(hashed) && calls.sha256(hashed) == recorded && |hashed| <= MAX_CANDIDATE_BYTES
      ensures r.Returned? ==> Delivers(calls.input, 0, BUFFER, hashed)
      ensures r.Returned? ==>
                && calls.before.Some? && calls.after.Some? && calls.creates && calls.syncs
                && calls.before.value.file && |hashed| == calls.before.value.size <= 64 * 1024 * 1024
                && calls.after.value.device == calls.before.value.device && calls.after.value.inode == calls.before.value.inode
                && calls.after.value.size == calls.before.value.size
      ensures None !in calls.grants && !r.Writing? ==>
                (r.Returned? <==>
                  && calls.before.Some? && calls.after.Some? && calls.creates && calls.syncs
                  && calls.before.value.file && calls.before.value.size <= 64 * 1024 * 1024
                  && calls.after.value.device == calls.before.value.device && calls.after.value.inode == calls.before.value.inode
                  && calls.after.value.size == calls.before.value.size
                  && exists data: Bytes ::
                       Delivers(calls.input, 0, BUFFER, data) && |data| == calls.before.value.size && calls.sha256(data) == recorded)
      ensures r.Thrown? && calls.removes ==> snapshot == None
      ensures r.Writing? ==> writes == |calls.grants|
    {
      r := Thrown;
      if calls.before.Some? && calls.before.value.file && calls.before.value.size <= MAX_CANDIDATE_BYTES && calls.creates {
        snapshot := Some([]);
        r := Copy(calls);
        if r.Writing? { return; }
        forall data: Bytes | |data| <= MAX_CANDIDATE_BYTES
          ensures Drain(calls.input, 0, BUFFER, MAX_CANDIDATE_BYTES) == Some(data) <==> Delivers(calls.input, 0, BUFFER, data)
        {
          DrainIffDelivers(calls.input, 0, BUFFER, MAX_CANDIDATE_BYTES, data);
        }
        if r.Returned? {
          DrainIffDelivers(calls.input, 0, BUFFER, MAX_CANDIDATE_BYTES, hashed);
          if !calls.syncs || calls.after.None? || !SameFile(calls.before.value, calls.after.value)
             || |hashed| != calls.before.value.size || calls.sha256(hashed) != recorded
          {
            r := Thrown;
          }
        }
      }
      if r.Thrown? && calls.removes { snapshot := None; }
    }
  }

  // ---------- the bounded read ----------

  // What the reads from `i` on put into a buffer with room for `room` bytes; None if one fails.
  function Fill(input: Reads, i: nat, room: nat): (r: Option<Bytes>)
    ensures r.Some? ==> |r.value| <= room
    decreases room
  {
    if room == 0 then Some([])
    else
      match Chunk(input, i, room)
      case None => None
      case Some(chunk) =>
        if chunk == [] then Some([])
        else
          match Fill(input, i + 1, room - |chunk|)
          case None => None
          case Some(rest) => Some(chunk + rest)
  }

  // The reads from `i` on deliver `data` in pieces of any size; what follows it is not looked at.
  predicate BeginsWith(input: Reads, i: nat, data: Bytes)
    decreases |data|
  {
    data == [] ||
    match Chunk(input, i, |data|)
    case None => false
    case Some(chunk) => chunk != [] && chunk <= data && BeginsWith(input, i + 1, data[|chunk|..])
  }

  // The buffer is filled with `data` exactly when the file begins with `data`.
  lemma {:induction false} FillIffBegins(input: Reads, i: nat, data: Bytes)
    ensures Fill(input, i, |data|) == Some(data) <==> BeginsWith(input, i, data)
    decreases |data|
  {
    if data != [] && Chunk(input, i, |data|).Some? {
      var c := Chunk(input, i, |data|).value;
      if c != [] && c <= data {
        FillIffBegins(input, i + 1, data[|c|..]);
        assert data == c + data[|c|..];
      }
      var rest := Fill(input, i + 1, |data| - |c|);
      if c != [] && rest.Some? { assert (c + rest.value)[|c|..] == rest.value; }
    }
  }

  // What one bounded read is told: lstat, fstat after opening, the reads, fstat at the end.
  datatype Observed = Observed(before: Option<Stat>, atOpen: Option<Stat>, input: Reads, after: Option<Stat>)

  /**
   Bytes are returned exactly when the file looked unchanged and the input filled the buffer, and they are
   then what the file began with, `size` bytes of it, whatever the sizes of the input.
   */
  method BoundedFileBytes(o: Observed, limit: nat) returns (r: Option<array<byte>>)
    ensures r.Some? <==>
            && o.before.Some? && o.atOpen.Some? && o.after.Some?
            && o.before.value.file && o.before.value.size <= limit && o.atOpen.value.file
            && o.atOpen.value.device == o.before.value.device && o.atOpen.value.inode == o.before.value.inode
            && o.atOpen.value.size == o.before.value.size
            && o.after.value.device == o.before.value.device && o.after.value.inode == o.before.value.inode
            && o.after.value.size == o.before.value.size
            && exists data: Bytes :: |data| == o.before.value.size && BeginsWith(o.input, 0, data)
    ensures r.Some? ==> fresh(r.value) && r.value.Length == o.before.value.size <= limit && BeginsWith(o.input, 0, r.value[..])
  {
    if o.before.None? || !o.before.value.file || o.before.value.size > limit { return None; }
    if o.atOpen.None? || !o.atOpen.value.file || !SameFile(o.atOpen.value, o.before.value) { return None; }
    var size := o.before.value.size;
    var bytes := new byte[size];
    forall data: Bytes | |data| == size
      ensures BeginsWith(o.input, 0, data) <==> Fill(o.input, 0, size) == Some(data)
    {
      FillIffBegins(o.input, 0, data);
    }
    var filled := FillBuffer(o.input, bytes);
    if filled.None? { return None; }
    assert bytes[..size] == bytes[..];
    if filled.value != size || o.after.None? || !SameFile(o.after.value, o.before.value) { return None; }
    r := Some(bytes);
  }

  // The loop over the offset.
  method FillBuffer(input: Reads, bytes: array<byte>) returns (filled: Option<nat>)
    modifies bytes
    ensures filled.Some? == Fill(input, 0, bytes.Length).Some?
    ensures filled.Some? ==> filled.value <= bytes.Length && Fill(input, 0, bytes.Length) == Some(bytes[..filled.value])
  {
    var offset, i := 0, 0;
    ghost var all := Fill(input, 0, bytes.Length);
    assert all.Some? ==> bytes[..0] + all.value == all.value;
    while offset < bytes.Length
      invariant 0 <= offset <= bytes.Length
      invariant match Fill(input, i, bytes.Length - offset)
                case None => Fill(input, 0, bytes.Length) == None
                case Some(rest) => Fill(input, 0, bytes.Length) == Some(bytes[..offset] + rest)
      decreases bytes.Length - offset
    {
      var chunk := Chunk(input, i, bytes.Length - offset);
      if chunk.None? { return None; }
      if chunk.value == [] { break; }
      ghost var rest := Fill(input, i + 1, bytes.Length - offset - |chunk.value|);
      ghost var done := bytes[..offset];
      if rest.Some? { assert done + (chunk.value + rest.value) == (done + chunk.value) + rest.value; }
      forall k | 0 <= k < |chunk.value| { bytes[offset + k] := chunk.value[k]; }
      assert bytes[..offset + |chunk.value|] == done + chunk.value;
      offset, i := offset + |chunk.value|, i + 1;
    }
    assert bytes[..offset] + [] == bytes[..offset];
    filled := Some(offset);
  }
}
