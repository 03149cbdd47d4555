/**
 Reading byte ranges of one open bundle file: the bounded reader, nested
 regions, chunked hashing, and the inspection of a payload archive's members.

 `contents` are the bytes of the open file.  A `pread` may return fewer bytes
 than asked for, but at least one before the end of the file; `grant` says how
 many the system is willing to return.
 */
module Region {
  import opened Options

  type Byte = bv8

  datatype Result<T> = Ok(value: T) | Err(error: Error)

  datatype Error =
    | BadWhence | NegativePosition | BadRegion | BadChunkSize | Changed | Truncated | TooLarge | WrongSize

  function Min(a: int, b: int): int { if a < b then a else b }

  /** `pread(2)` on a regular file. */
  function Pread(contents: seq<Byte>, size: nat, offset: nat, grant: nat): (data: seq<Byte>)
    ensures |data| <= size
    ensures offset <= |contents| ==> offset + |data| <= |contents| && data == contents[offset..offset + |data|]
    ensures data == [] <==> size == 0 || offset >= |contents|
  {
    if size == 0 || offset >= |contents| then []
    else
      var most := Min(size, |contents| - offset);
      contents[offset..offset + (if grant == 0 then 1 else Min(grant, most))]
  }

  // ---------------------------------------------------------------- the bounded reader

  datatype Whence = FromStart | FromCurrent | FromEnd | OtherWhence

  datatype View = View(start: nat, size: nat, position: nat)

  predicate Inside(contents: seq<Byte>, v: View) {
    v.position <= v.size && v.start + v.size <= |contents|
  }

  function Target(v: View, offset: int, whence: Whence): int {
    match whence
    case FromStart => offset
    case FromCurrent => v.position + offset
    case FromEnd => v.size + offset
    case OtherWhence => 0
  }

  function Seek(v: View, offset: int, whence: Whence): (View, Result<nat>) {
    if whence.OtherWhence? then (v, Err(BadWhence))
    else
      var position := Target(v, offset, whence);
      if position < 0 then (v, Err(NegativePosition))
      else (v.(position := Min(position, v.size)), Ok(Min(position, v.size)))
  }

  /** `None` and negative sizes ask for everything that is left. */
  function Wanted(v: View, size: Option<int>): nat
    requires v.position <= v.size
  {
    if size.None? || size.value < 0 then v.size - v.position else Min(size.value, v.size - v.position)
  }

  function Read(contents: seq<Byte>, v: View, size: Option<int>, grant: nat): (r: (View, seq<Byte>))
    requires Inside(contents, v)
    ensures Inside(contents, r.0)
  {
    var data := Pread(contents, Wanted(v, size), v.start + v.position, grant);
    (v.(position := v.position + |data|), data)
  }

  datatype Op = Seeks(offset: int, whence: Whence) | Reads(size: Option<int>, grant: nat)

  function Step(contents: seq<Byte>, v: View, op: Op): (r: (View, seq<Byte>))
    requires Inside(contents, v)
    ensures Inside(contents, r.0) && r.0.start == v.start && r.0.size == v.size
  {
    match op
    case Seeks(offset, whence) => (Seek(v, offset, whence).0, [])
    case Reads(size, grant) => Read(contents, v, size, grant)
  }

  function Run(contents: seq<Byte>, v: View, ops: seq<Op>): (r: (View, seq<seq<Byte>>))
    requires Inside(contents, v)
    ensures Inside(contents, r.0) && |r.1| == |ops|
    decreases |ops|
  {
    if ops == [] then (v, [])
    else
      var (v1, data) := Step(contents, v, ops[0]);
      var (v2, rest) := Run(contents, v1, ops[1..]);
      (v2, [data] + rest)
  }

  /** The region's own bytes. */
  function ViewBytes(contents: seq<Byte>, v: View): seq<Byte>
    requires Inside(contents, v)
  {
    contents[v.start..v.start + v.size]
  }

  lemma SliceOfSlice(s: seq<Byte>, a: nat, b: nat, i: nat, j: nat)
    requires a <= b <= |s| && i <= j <= b - a
    ensures s[a..b][i..j] == s[a + i..a + j]
  {
    forall k | 0 <= k < j - i ensures s[a..b][i..j][k] == s[a + i..a + j][k] {
      assert s[a..b][i + k] == s[a + i + k];
    }
  }

  /** One read returns the region's bytes at the tracked position and moves past them. */
  lemma ReadIsInPlace(contents: seq<Byte>, v: View, size: Option<int>, grant: nat)
    requires Inside(contents, v)
    ensures var (after, data) := Read(contents, v, size, grant);
      && v.position + |data| <= v.size && after == v.(position := v.position + |data|)
      && data == ViewBytes(contents, v)[v.position..v.position + |data|]
      && (data == [] <==> size == Some(0) || v.position == v.size)
  {
    var n := |Read(contents, v, size, grant).1|;
    SliceOfSlice(contents, v.start, v.start + v.size, v.position, v.position + n);
  }

  /** A read returns no more than was asked for and is left, and all of it if the system grants that much. */
  lemma ReadLengthLaw(contents: seq<Byte>, v: View, size: Option<int>, grant: nat)
    requires Inside(contents, v)
    ensures var left, n := v.size - v.position, |Read(contents, v, size, grant).1|;
      && n <= left && (size.Some? && size.value >= 0 ==> n <= size.value)
      && (grant >= v.size ==>
            n == if size.None? || size.value < 0 || size.value > left then left else size.value)
  {
  }

  /** A seek goes where it is told from the start, the position or the end, at most to the end, or it is refused. */
  lemma SeekLaw(v: View, offset: int, whence: Whence, position: nat)
    ensures Seek(v, offset, whence) == (v.(position := position), Ok(position)) <==>
      var base := if whence == FromStart then 0 else if whence == FromCurrent then v.position else v.size;
      && whence != OtherWhence && base + offset >= 0
      && position == if base + offset > v.size then v.size else base + offset
    ensures Seek(v, offset, whence).1.Err? ==> Seek(v, offset, whence).0 == v
    ensures Seek(v, offset, whence).1 == Err(BadWhence) <==> whence == OtherWhence
  {
  }

  lemma {:induction false} RunAt(contents: seq<Byte>, v: View, ops: seq<Op>, k: nat)
    requires Inside(contents, v) && k < |ops|
    ensures var before := Run(contents, v, ops[..k]).0;
      && before.start == v.start && before.size == v.size
      && Run(contents, v, ops).1[k] == Step(contents, before, ops[k]).1
      && Run(contents, v, ops[..k + 1]).0 == Step(contents, before, ops[k]).0
    decreases |ops|
  {
    hide Inside, Step;
    var v1 := Step(contents, v, ops[0]).0;
    if k == 0 {
      assert ops[..1] == [ops[0]] && ops[..0] == [];
    } else {
      RunAt(contents, v1, ops[1..], k - 1);
      assert ops[..k][1..] == ops[1..][..k - 1] && ops[..k + 1][1..] == ops[1..][..k];
    }
  }

  /** Every read of every run returns the region's bytes at the position tracked before it, and none from outside. */
  lemma EveryReadIsInPlace(contents: seq<Byte>, v: View, ops: seq<Op>, k: nat)
    requires Inside(contents, v) && k < |ops| && ops[k].Reads?
    ensures var before, after := Run(contents, v, ops[..k]).0, Run(contents, v, ops[..k + 1]).0;
      var data := Run(contents, v, ops).1[k];
      && before.position + |data| <= v.size && after == before.(position := before.position + |data|)
      && data == ViewBytes(contents, v)[before.position..before.position + |data|]
      && (data == [] <==> ops[k].size == Some(0) || before.position == v.size)
  {
    RunAt(contents, v, ops, k);
    var before := Run(contents, v, ops[..k]).0;
    ReadIsInPlace(contents, before, ops[k].size, ops[k].grant);
    SameBytes(contents, v, before);
    hide Run, Read, Inside, ViewBytes;
  }

  function Joined(pieces: seq<seq<Byte>>): seq<Byte> {
    if pieces == [] then [] else pieces[0] + Joined(pieces[1..])
  }

  lemma SlicesJoin(s: seq<Byte>, a: nat, b: nat, c: nat)
    requires a <= b <= c <= |s|
    ensures s[a..b] + s[b..c] == s[a..c]
  {
  }

  /** Reads without seeks, however short each one is, join to the bytes between the first and the last position. */
  lemma {:induction false} ReadsJoin(contents: seq<Byte>, v: View, ops: seq<Op>)
    requires Inside(contents, v) && forall k :: 0 <= k < |ops| ==> ops[k].Reads?
    ensures var (after, pieces) := Run(contents, v, ops);
      && after.start == v.start && after.size == v.size && v.position <= after.position <= v.size
      && Joined(pieces) == ViewBytes(contents, v)[v.position..after.position]
    decreases |ops|
  {
    if ops == [] {
      assert ViewBytes(contents, v)[v.position..v.position] == [];
    } else {
      var (v1, data) := Step(contents, v, ops[0]);
      var (after, rest) := Run(contents, v1, ops[1..]);
      ReadIsInPlace(contents, v, ops[0].size, ops[0].grant);
      ReadsJoin(contents, v1, ops[1..]);
      SameBytes(contents, v, v1);
      JoinedPrepend(data, rest);
      assert Run(contents, v, ops) == (after, [data] + rest);
      var bytes := ViewBytes(contents, v);
      hide *;
      SlicesJoin(bytes, v.position, v1.position, after.position);
    }
  }

  lemma JoinedPrepend(piece: seq<Byte>, rest: seq<seq<Byte>>)
    ensures Joined([piece] + rest) == piece + Joined(rest)
  {
    assert ([piece] + rest)[1..] == rest;
  }

  lemma SameBytes(contents: seq<Byte>, v: View, w: View)
    requires Inside(contents, v) && Inside(contents, w) && v.start == w.start && v.size == w.size
    ensures ViewBytes(contents, v) == ViewBytes(contents, w)
  {
  }

  class BoundedReader {
    const contents: seq<Byte>
    const start: nat
    const size: nat
    var position: nat

    ghost predicate Valid()
      reads this
    {
      Inside(contents, Where())
    }

    ghost function Where(): View
      reads this
    {
      View(start, size, position)
    }

    constructor (contents: seq<Byte>, start: nat, size: nat)
      requires start + size <= |contents|
      ensures Valid() && this.contents == contents && Where() == View(start, size, 0)
    {
      this.contents, this.start, this.size, position := contents, start, size, 0;
    }

    method SeekTo(offset: int, whence: Whence) returns (r: Result<nat>)
      requires Valid()
      modifies this
      ensures Valid() && (Where(), r) == Seek(old(Where()), offset, whence)
    {
      var target: int;
      match whence {
        case FromStart => target := offset;
        case FromCurrent => target := position + offset;
        case FromEnd => target := size + offset;
        case OtherWhence => return Err(BadWhence);
      }
      if target < 0 { return Err(NegativePosition); }
      position := Min(target, size);
      return Ok(position);
    }

    method ReadBytes(count: Option<int>, grant: nat) returns (data: seq<Byte>)
      requires Valid()
      modifies this
      ensures Valid() && (Where(), data) == Read(contents, old(Where()), count, grant)
    {
      var remaining := size - position;
      if remaining <= 0 { return []; }
      var wanted := remaining;
      if count.Some? && count.value >= 0 { wanted := Min(count.value, remaining); }
      data := Pread(contents, wanted, start + position, grant);
      position := position + |data|;
    }
  }

  // ---------------------------------------------------------------- regions

  datatype FileRegion = FileRegion(offset: nat, size: nat)

  /** The checks of the constructor. */
  function MakeRegion(contents: seq<Byte>, offset: int, size: int): Result<FileRegion> {
    if offset < 0 || size < 0 || offset + size > |contents| then Err(BadRegion) else Ok(FileRegion(offset, size))
  }

  function Subregion(contents: seq<Byte>, r: FileRegion, offset: int, size: int): Result<FileRegion> {
    if offset < 0 || size < 0 || offset + size > r.size then Err(BadRegion)
    else MakeRegion(contents, r.offset + offset, size)
  }

  predicate Within(contents: seq<Byte>, r: FileRegion) { r.offset + r.size <= |contents| }

  function Bytes(contents: seq<Byte>, r: FileRegion): seq<Byte>
    requires Within(contents, r)
  {
    contents[r.offset..r.offset + r.size]
  }

  /** A subregion exists exactly for a range inside its region, and its bytes are that range of the region's bytes. */
  lemma SubregionIsASlice(contents: seq<Byte>, r: FileRegion, offset: int, size: int)
    requires Within(contents, r)
    ensures Subregion(contents, r, offset, size).Ok? <==> 0 <= offset && 0 <= size && offset + size <= r.size
    ensures Subregion(contents, r, offset, size).Ok? ==>
      var s := Subregion(contents, r, offset, size).value;
      Within(contents, s) && Bytes(contents, s) == Bytes(contents, r)[offset..offset + size]
  {
    if 0 <= offset && 0 <= size && offset + size <= r.size {
      SliceOfSlice(contents, r.offset, r.offset + r.size, offset, offset + size);
    }
  }

  /** Nested subregions add their offsets and stay inside every region around them. */
  lemma NestedSubregions(contents: seq<Byte>, r: FileRegion, a: int, n: int, b: int, m: int)
    requires Within(contents, r) && Subregion(contents, r, a, n).Ok?
    requires Subregion(contents, Subregion(contents, r, a, n).value, b, m).Ok?
    ensures Subregion(contents, Subregion(contents, r, a, n).value, b, m) == Subregion(contents, r, a + b, m)
    ensures a + b + m <= a + n <= r.size
  {
  }

  // ---------------------------------------------------------------- hashing and small reads

  /**
   `sha256`: feed the region to the digest chunk by chunk.  `hash` is the digest of all the bytes fed; `before` and
   `after` are the outcomes of the two checks that the file is still the pinned one.
   */
  method Sha256<D>(contents: seq<Byte>, r: FileRegion, chunk: int, grants: nat -> nat, before: bool, after: bool,
                   hash: seq<Byte> -> D)
    returns (digest: Result<D>)
    ensures digest.Ok? <==> chunk > 0 && before && after && (r.size == 0 || Within(contents, r))
    ensures digest.Ok? && Within(contents, r) ==> digest.value == hash(Bytes(contents, r))
    ensures digest == Err(Truncated) ==> !Within(contents, r)
    ensures digest == Err(BadChunkSize) <==> chunk <= 0
  {
    if chunk <= 0 { return Err(BadChunkSize); }
    if !before { return Err(Changed); }
    var position, fed := 0, [];
    while position < r.size
      invariant 0 <= position <= r.size
      invariant position > 0 ==> r.offset + position <= |contents|
      invariant |fed| == position && (position > 0 ==> fed == contents[r.offset..r.offset + position])
      decreases r.size - position
    {
      var data := Pread(contents, Min(chunk, r.size - position), r.offset + position, grants(position));
      if data == [] { return Err(Truncated); }
      fed := fed + data;
      position := position + |data|;
    }
    if !after { return Err(Changed); }
    assert Within(contents, r) ==> fed == Bytes(contents, r);
    return Ok(hash(fed));
  }

  /** `read_small`: all of the region or an error, never a part of it. */
  method ReadSmall(contents: seq<Byte>, r: FileRegion, maxBytes: int, grant: nat, before: bool, after: bool)
    returns (data: Result<seq<Byte>>)
    requires Within(contents, r)
    ensures data.Ok? ==> data.value == Bytes(contents, r)
    ensures data.Ok? <==>
      r.size <= maxBytes && before && after && Pread(contents, r.size, r.offset, grant) == Bytes(contents, r)
    ensures data == Err(TooLarge) <==> r.size > maxBytes
  {
    if r.size > maxBytes { return Err(TooLarge); }
    if !before { return Err(Changed); }
    var source := new BoundedReader(contents, r.offset, r.size);
    var bytes := source.ReadBytes(Some(r.size + 1), grant);
    if !after { return Err(Changed); }
    if |bytes| != r.size { return Err(WrongSize); }
    return Ok(bytes);
  }
}
