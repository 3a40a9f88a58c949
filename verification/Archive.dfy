/**
 The walk over an expanded candidate archive (assertSafeCandidateArchive, tarString, tarOctal in
 scripts/install-channel.mjs). Text is kept as the bytes it was decoded from: a field is rejected
 unless decoding it is lossless, and every later test only looks at ASCII characters.
 */
module Archive {
  import opened Common
  import opened Bytes

  const MAX_UNPACKED_BYTES: nat := 64 * 1024 * 1024
  const MAX_ENTRY_BYTES: nat := 16 * 1024 * 1024
  const MAX_ENTRIES: nat := 4096
  const MAX_PATH_BYTES: nat := 512
  const MAX_SAFE_INTEGER: nat := 9007199254740991

  const SLASH: byte := 0x2F
  const BACKSLASH: byte := 0x5C
  const NEWLINE: byte := 0x0A
  const PACKAGE: Bytes := [0x70, 0x61, 0x63, 0x6B, 0x61, 0x67, 0x65]
  const DOT: Bytes := [0x2E]
  const DOT_DOT: Bytes := [0x2E, 0x2E]
  const APPLE_DOUBLE: Bytes := [0x2E, 0x5F]
  const REGULAR_OLD: byte := 0
  const REGULAR: byte := 0x30
  const DIRECTORY: byte := 0x35
  const PAX: byte := 0x78

  datatype Error =
    | InvalidUtf8
    | Base256
    | InvalidField
    | UnboundedField
    | TooManyEntries
    | ChecksumMismatch
    | EntryTooLarge
    | TotalTooLarge
    | Truncated
    | ExpandedSize
    | SpecialEntry
    | UnsafePath
    | DirectoryWithData
    | InvalidTermination

  datatype Visit = Visit(offset: nat, path: Bytes, directory: bool, size: nat)

  // ---------- fields ----------

  function CutAtNul(field: Bytes): (s: Bytes)
    ensures 0 !in s && s <= field
    decreases |field|
  {
    if field == [] || field[0] == 0 then [] else [field[0]] + CutAtNul(field[1..])
  }

  function TarString(field: Bytes): Result<Bytes, Error>
  {
    var s := CutAtNul(field);
    if CleanText(s) then Ok(s) else Err(InvalidUtf8)
  }

  // The white space that String.prototype.trim removes, beyond ASCII, in its UTF-8 encoding.
  predicate WideSpace(a: byte, b: byte, c: byte)
  {
    || (a == 0xE1 && b == 0x9A && c == 0x80)
    || (a == 0xE2 && b == 0x80 && (0x80 <= c <= 0x8A || c == 0xA8 || c == 0xA9 || c == 0xAF))
    || (a == 0xE2 && b == 0x81 && c == 0x9F)
    || (a == 0xE3 && b == 0x80 && c == 0x80)
    || (a == 0xEF && b == 0xBB && c == 0xBF)
  }

  predicate AsciiSpace(b: byte) { b == 0x20 || 0x09 <= b <= 0x0D }

  function SpaceAtStart(s: Bytes): (n: nat)
    ensures n <= |s|
  {
    if |s| >= 1 && AsciiSpace(s[0]) then 1
    else if |s| >= 2 && s[0] == 0xC2 && s[1] == 0xA0 then 2
    else if |s| >= 3 && WideSpace(s[0], s[1], s[2]) then 3
    else 0
  }

  function SpaceAtEnd(s: Bytes): (n: nat)
    ensures n <= |s|
  {
    if |s| >= 1 && AsciiSpace(s[|s| - 1]) then 1
    else if |s| >= 2 && s[|s| - 2] == 0xC2 && s[|s| - 1] == 0xA0 then 2
    else if |s| >= 3 && WideSpace(s[|s| - 3], s[|s| - 2], s[|s| - 1]) then 3
    else 0
  }

  function TrimStart(s: Bytes): (t: Bytes)
    ensures |t| <= |s|
    decreases |s|
  {
    if SpaceAtStart(s) == 0 then s else TrimStart(s[SpaceAtStart(s)..])
  }

  function TrimEnd(s: Bytes): (t: Bytes)
    ensures |t| <= |s|
    decreases |s|
  {
    if SpaceAtEnd(s) == 0 then s else TrimEnd(s[..|s| - SpaceAtEnd(s)])
  }

  function TarOctal(field: Bytes): Result<nat, Error>
    requires field != []
  {
    if field[0] >= 0x80 then Err(Base256)
    else match TarString(field)
         case Err(e) => Err(e)
         case Ok(text) =>
           var digits := TrimEnd(TrimStart(text));
           if !IsDigits(digits, 8) then Err(InvalidField)
           else if Value(digits, 8) > MAX_SAFE_INTEGER then Err(UnboundedField)
           else Ok(Value(digits, 8))
  }

  // ---------- one header ----------

  function Checksum(header: Bytes): nat
    requires |header| == 512
  {
    Sum(header[..148]) + 8 * 0x20 + Sum(header[156..])
  }

  function EntryPath(prefix: Bytes, name: Bytes): (path: Bytes)
    ensures prefix == [] ==> path == name
    ensures prefix != [] ==> prefix < path && path[|prefix|] == SLASH && path[|prefix| + 1..] == name
  {
    if prefix != [] then prefix + [SLASH] + name else name
  }

  function PathOf(header: Bytes): Result<Bytes, Error>
    requires |header| == 512
  {
    match TarString(header[..100])
    case Err(e) => Err(e)
    case Ok(name) =>
      match TarString(header[345..500])
      case Err(e) => Err(e)
      case Ok(prefix) => Ok(EntryPath(prefix, name))
  }

  // The bytes a body of this size occupies in the archive.
  function Padded(size: nat): (n: nat)
    ensures n % 512 == 0 && size <= n < size + 512
  {
    (size + 511) / 512 * 512
  }

  predicate HasAppleDouble(path: Bytes)
  {
    exists part :: part in Split(path, SLASH) && StartsWith(part, APPLE_DOUBLE)
  }

  function DropTrailingSlash(s: Bytes): Bytes
  {
    if s != [] && s[|s| - 1] == SLASH then s[..|s| - 1] else s
  }

  predicate Traversal(part: Bytes) { part == [] || part == DOT || part == DOT_DOT }

  predicate SafePath(path: Bytes, directory: bool)
  {
    var root := path == PACKAGE && directory;
    && |path| <= MAX_PATH_BYTES
    && (root || StartsWith(path, PACKAGE + [SLASH]))
    && var relative := if root then [] else DropTrailingSlash(path[8..]);
       && (relative == [] ==> directory)
       && BACKSLASH !in relative
       && (relative != [] ==> forall part :: part in Split(relative, SLASH) ==> !Traversal(part))
  }

  datatype Entry = Reject(error: Error) | Defer(size: nat) | Accept(path: Bytes, directory: bool, size: nat)

  // The checks on one entry, in the order of the source; `total` is the content size so far.
  function ReadEntry(rest: Bytes, total: nat): (e: Entry)
    requires |rest| >= 512
    ensures !e.Reject? ==> 512 + Padded(e.size) <= |rest|
  {
    var header := rest[..512];
    match TarOctal(header[148..156])
    case Err(e) => Reject(e)
    case Ok(recorded) =>
      if Checksum(header) != recorded then Reject(ChecksumMismatch)
      else match PathOf(header)
           case Err(e) => Reject(e)
           case Ok(path) =>
             match TarOctal(header[124..136])
             case Err(e) => Reject(e)
             case Ok(size) =>
               if size > MAX_ENTRY_BYTES then Reject(EntryTooLarge)
               else if total + size > MAX_UNPACKED_BYTES then Reject(TotalTooLarge)
               else if 512 + Padded(size) > |rest| then Reject(Truncated)
               else ReadTyped(header[156], path, size, rest[512..512 + size])
  }

  function ReadTyped(flag: byte, path: Bytes, size: nat, body: Bytes): (e: Entry)
    ensures !e.Reject? ==> e.size == size
  {
    if flag == PAX then
      if SparseSize(body, 0) > MAX_UNPACKED_BYTES then Reject(ExpandedSize) else Defer(size)
    else if flag !in {REGULAR_OLD, REGULAR, DIRECTORY} then Reject(SpecialEntry)
    else if HasAppleDouble(path) then Defer(size)
    else if !SafePath(path, flag == DIRECTORY) then Reject(UnsafePath)
    else if flag == DIRECTORY && size != 0 then Reject(DirectoryWithData)
    else Accept(path, flag == DIRECTORY, size)
  }

  // ---------- the sparse-size probe of a PAX record ----------

  const GNU_SPARSE: Bytes := [0x20, 0x47, 0x4E, 0x55, 0x2E, 0x73, 0x70, 0x61, 0x72, 0x73, 0x65, 0x2E]
  const SIZE_IS: Bytes := [0x73, 0x69, 0x7A, 0x65, 0x3D]
  const REALSIZE_IS: Bytes := [0x72, 0x65, 0x61, 0x6C] + SIZE_IS

  function DigitsLength(s: Bytes): (n: nat)
    ensures n <= |s| && forall i :: 0 <= i < n ==> 0x30 <= s[i] < 0x3A
    decreases |s|
  {
    if s != [] && 0x30 <= s[0] < 0x3A then 1 + DigitsLength(s[1..]) else 0
  }

  // The number on a line of digits.
  function SizeLine(s: Bytes): Option<nat>
  {
    var n := DigitsLength(s);
    if 0 < n < |s| && s[n] == NEWLINE then Some(Value(s[..n], 10)) else None
  }

  function SparseKey(s: Bytes): Option<nat>
  {
    if StartsWith(s, REALSIZE_IS) then SizeLine(s[|REALSIZE_IS|..])
    else if StartsWith(s, SIZE_IS) then SizeLine(s[|SIZE_IS|..])
    else None
  }

  // The number of one record "<digits> GNU.sparse.[real]size=<digits>\n" starting here.
  function SparseRecord(s: Bytes): Option<nat>
  {
    var t := s[DigitsLength(s)..];
    if DigitsLength(s) == 0 || !StartsWith(t, GNU_SPARSE) then None else SparseKey(t[|GNU_SPARSE|..])
  }

  // The number of the first such record at the start of a line, from position `at` on; 0 without one.
  function SparseSize(body: Bytes, at: nat): nat
    requires at <= |body|
    decreases |body| - at
  {
    var here := if at == 0 || body[at - 1] == NEWLINE then SparseRecord(body[at..]) else None;
    if here.Some? then here.value
    else if at < |body| then SparseSize(body, at + 1)
    else 0
  }

  // ---------- the walk ----------

  function Prepend(vs: seq<Visit>, r: Result<seq<Visit>, Error>): Result<seq<Visit>, Error>
  {
    match r
    case Ok(ws) => Ok(vs + ws)
    case Err(e) => Err(e)
  }

  // What the walk makes of the bytes from `offset` on, given the counters reached there.
  function Walk(rest: Bytes, offset: nat, entries: nat, total: nat, deferred: bool): Result<seq<Visit>, Error>
    decreases |rest|
  {
    if |rest| < 512 then Err(InvalidTermination)
    else if AllZero(rest[..512]) then
      if entries == 0 || !AllZero(rest) then Err(InvalidTermination)
      else if deferred then Err(SpecialEntry)
      else Ok([])
    else if entries + 1 > MAX_ENTRIES then Err(TooManyEntries)
    else match ReadEntry(rest, total)
         case Reject(e) => Err(e)
         case Defer(size) =>
           var n := 512 + Padded(size);
           Walk(rest[n..], offset + n, entries + 1, total + size, true)
         case Accept(path, directory, size) =>
           var n := 512 + Padded(size);
           Prepend([Visit(offset, path, directory, size)],
                   Walk(rest[n..], offset + n, entries + 1, total + size, deferred))
  }

  function Visited(e: Entry, offset: nat): seq<Visit>
  {
    if e.Accept? then [Visit(offset, e.path, e.directory, e.size)] else []
  }

  // One turn of the walk, in terms of offsets into the whole archive.
  lemma WalkTurn(archive: Bytes, offset: nat, entries: nat, total: nat, deferred: bool, visits: seq<Visit>)
    requires offset + 512 <= |archive| && !AllZero(archive[offset..][..512]) && entries < MAX_ENTRIES
    ensures var e := ReadEntry(archive[offset..], total);
            Prepend(visits, Walk(archive[offset..], offset, entries, total, deferred)) ==
            if e.Reject? then Err(e.error)
            else
              var next := offset + 512 + Padded(e.size);
              Prepend(visits + Visited(e, offset),
                      Walk(archive[next..], next, entries + 1, total + e.size, deferred || e.Defer?))
  {
    hide ReadEntry;
    var e := ReadEntry(archive[offset..], total);
    if !e.Reject? {
      var next := offset + 512 + Padded(e.size);
      assert archive[offset..][512 + Padded(e.size)..] == archive[next..];
      var r := Walk(archive[next..], next, entries + 1, total + e.size, deferred || e.Defer?);
      assert visits + [] == visits;
      if r.Ok? { assert visits + Visited(e, offset) + r.value == visits + (Visited(e, offset) + r.value); }
    }
  }

  // The walk where no further entry is read.
  lemma WalkEnds(rest: Bytes, offset: nat, entries: nat, total: nat, deferred: bool, visits: seq<Visit>)
    requires |rest| < 512 || AllZero(rest[..512]) || entries >= MAX_ENTRIES
    ensures Prepend(visits, Walk(rest, offset, entries, total, deferred)) ==
            if |rest| < 512 then Err(InvalidTermination)
            else if !AllZero(rest[..512]) then Err(TooManyEntries)
            else if entries == 0 || !AllZero(rest) then Err(InvalidTermination)
            else if deferred then Err(SpecialEntry)
            else Ok(visits)
  {
    hide ReadEntry;
    assert visits + [] == visits;
  }

  lemma PrependNothing(r: Result<seq<Visit>, Error>)
    ensures Prepend([], r) == r
  {
    if r.Ok? { assert [] + r.value == r.value; }
  }

  lemma EmptySum()
    ensures Sum([]) == 0
  {
  }

  lemma SumNext(s: Bytes, from: nat, to: nat)
    requires from <= to < |s|
    ensures Sum(s[from..to + 1]) == Sum(s[from..to]) + s[to]
  {
    assert s[from..to + 1][..to - from] == s[from..to];
  }

  method HeaderChecksum(header: Bytes) returns (checksum: nat)
    requires |header| == 512
    ensures checksum == Checksum(header)
  {
    hide Sum;
    assert header[156..156] == header[0..0] == [] && Sum([]) == 0 by { EmptySum(); }
    checksum := 0;
    for index := 0 to 512
      invariant index <= 148 ==> checksum == Sum(header[0..index])
      invariant 148 <= index <= 156 ==> checksum == Sum(header[0..148]) + (index - 148) * 0x20
      invariant 156 <= index ==> checksum == Sum(header[0..148]) + 8 * 0x20 + Sum(header[156..index])
    {
      if 148 <= index < 156 {
        checksum := checksum + 0x20;
      } else {
        checksum := checksum + header[index];
        if index < 148 { SumNext(header, 0, index); } else { SumNext(header, 156, index); }
      }
    }
    assert header[0..148] == header[..148] && header[156..512] == header[156..];
  }

  method InspectEntry(rest: Bytes, total: nat) returns (e: Entry)
    requires |rest| >= 512
    ensures e == ReadEntry(rest, total)
  {
    var header := rest[..512];
    var recorded := TarOctal(header[148..156]);
    if recorded.Err? { return Reject(recorded.error); }
    var checksum := HeaderChecksum(header);
    if checksum != recorded.value { return Reject(ChecksumMismatch); }
    var path := PathOf(header);
    if path.Err? { return Reject(path.error); }
    var size := TarOctal(header[124..136]);
    if size.Err? { return Reject(size.error); }
    if size.value > MAX_ENTRY_BYTES { return Reject(EntryTooLarge); }
    if total + size.value > MAX_UNPACKED_BYTES { return Reject(TotalTooLarge); }
    if 512 + Padded(size.value) > |rest| { return Reject(Truncated); }
    return ReadTyped(header[156], path.value, size.value, rest[512..512 + size.value]);
  }

  /**
   The walk as the source runs it, over offsets and running counters. It terminates because every
   entry moves the offset forward inside the archive; the visited entries are returned for reference.
   */
  method AssertSafeCandidateArchive(archive: Bytes) returns (r: Result<seq<Visit>, Error>)
    ensures r == Walk(archive, 0, 0, 0, false)
  {
    hide ReadEntry, Walk, Prepend;
    var offset: nat, entries: nat, totalBytes: nat := 0, 0, 0;
    var ended, deferredSpecialEntry := false, false;
    var visits: seq<Visit> := [];
    assert archive[0..] == archive;
    PrependNothing(Walk(archive, 0, 0, 0, false));
    while offset + 512 <= |archive| && !ended
      invariant offset <= |archive|
      invariant ended ==> offset + 512 <= |archive| && AllZero(archive[offset..][..512])
      invariant Walk(archive, 0, 0, 0, false)
                == Prepend(visits, Walk(archive[offset..], offset, entries, totalBytes, deferredSpecialEntry))
      decreases |archive| - offset, !ended
    {
      var rest := archive[offset..];
      if AllZero(rest[..512]) {
        ended := true;
        continue;
      }
      entries := entries + 1;
      if entries > MAX_ENTRIES {
        WalkEnds(rest, offset, entries - 1, totalBytes, deferredSpecialEntry, visits);
        return Err(TooManyEntries);
      }
      var entry := InspectEntry(rest, totalBytes);
      WalkTurn(archive, offset, entries - 1, totalBytes, deferredSpecialEntry, visits);
      if entry.Reject? { return Err(entry.error); }
      if entry.Defer? {
        deferredSpecialEntry := true;
        assert visits + Visited(entry, offset) == visits;
      } else {
        visits := visits + [Visit(offset, entry.path, entry.directory, entry.size)];
      }
      totalBytes := totalBytes + entry.size;
      offset := offset + 512 + Padded(entry.size);
    }
    WalkEnds(archive[offset..], offset, entries, totalBytes, deferredSpecialEntry, visits);
    if !ended || entries == 0 || !AllZero(archive[offset..]) { return Err(InvalidTermination); }
    if deferredSpecialEntry { return Err(SpecialEntry); }
    return Ok(visits);
  }
}
