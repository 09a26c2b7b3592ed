/** Cutting a packet stream into files of bounded size. The size is accounted per packet
    from the in-memory packet header, not from the record header that reaches the file. */
module ChunkFile {
  /** Size of the in-memory packet header, with two 64-bit time fields. */
  const PACKET_HEADER := 24
  /** Sizes that a capture file really spends: once per file, and once per packet. */
  const FILE_HEADER := 24
  const RECORD_HEADER := 16
  const MIN_CHUNK_SIZE := 0x100000
  /** The most bytes of a packet that the capture library delivers from a file. */
  const MAX_SNAPLEN := 262144

  datatype Packet = Packet(caplen: nat, data: seq<int>)

  predicate Captured(p: Packet) {
    p.caplen <= MAX_SNAPLEN
  }

  function Used(file: seq<Packet>): nat {
    if file == [] then 0 else Used(file[..|file| - 1]) + PACKET_HEADER + file[|file| - 1].caplen
  }

  function SizeOnDisk(file: seq<Packet>): nat {
    FILE_HEADER + Records(file)
  }

  function Records(file: seq<Packet>): nat {
    if file == [] then 0 else Records(file[..|file| - 1]) + RECORD_HEADER + file[|file| - 1].caplen
  }

  function Flatten(files: seq<seq<Packet>>): seq<Packet> {
    if files == [] then [] else Flatten(files[..|files| - 1]) + files[|files| - 1]
  }

  /** No file is empty or over the limit, and none could have taken the next packet too. */
  predicate Greedy(files: seq<seq<Packet>>, limit: nat) {
    && (forall i :: 0 <= i < |files| ==> files[i] != [] && Used(files[i]) <= limit)
    && (forall i :: 0 <= i < |files| - 1 ==>
          Used(files[i]) + PACKET_HEADER + files[i + 1][0].caplen > limit)
  }

  /** The program's globals; files holds what each output file has been given. */
  class Chunker {
    const limit: nat
    var open: bool
    var chunkNo: nat
    var chunkUsed: nat
    var files: seq<seq<Packet>>

    ghost predicate Valid()
      reads this
    {
      && limit >= MIN_CHUNK_SIZE
      && chunkNo == |files|
      && (open <==> files != [])
      && chunkUsed == (if files == [] then 0 else Used(files[|files| - 1]))
      && Greedy(files, limit)
    }

    constructor (limit: nat)
      requires limit >= MIN_CHUNK_SIZE
      ensures Valid() && this.limit == limit && files == []
    {
      this.limit := limit;
      open, chunkNo, chunkUsed, files := false, 0, 0, [];
    }

    /** Handles one packet: closes a file that cannot take it, opens the next one, writes. */
    method HandlePacket(p: Packet)
      requires Valid() && Captured(p)
      modifies this
      ensures Valid()
      ensures Flatten(files) == old(Flatten(files)) + [p]
      ensures old(|files|) <= |files| <= old(|files|) + 1
      ensures forall i :: 0 <= i < old(|files|) - 1 ==> files[i] == old(files[i])
    {
      hide Used, Flatten, Greedy;
      ghost var before := files;
      if before != [] {
        AppendToLast(before, p, limit);
      }
      StartFile(before, p, limit);
      if chunkUsed + PACKET_HEADER + p.caplen > limit {
        assert open;
        open := false;
        chunkUsed := 0;
      }
      if !open {
        chunkNo := chunkNo + 1;
        files := files + [[]];
        open := true;
      }
      var n := |files| - 1;
      ghost var ready := files;
      files := files[n := files[n] + [p]];
      if ready == before {
        assert files == before[n := before[n] + [p]];
      } else {
        assert ready == before + [[]] && files[n] == [] + [p] == [p];
        assert files == before + [[p]];
      }
      chunkUsed := chunkUsed + PACKET_HEADER + p.caplen;
    }
  }

  lemma UsedSnoc(file: seq<Packet>, p: Packet)
    ensures Used(file + [p]) == Used(file) + PACKET_HEADER + p.caplen
  {
    assert (file + [p])[..|file|] == file;
  }

  /** The sizes, in numbers: 24 bytes accounted per packet, 24 spent per file and 16 per record. */
  lemma SizesOf(file: seq<Packet>, p: Packet)
    ensures Used([]) == 0 && SizeOnDisk([]) == 24
    ensures Used(file + [p]) == Used(file) + 24 + p.caplen
    ensures SizeOnDisk(file + [p]) == SizeOnDisk(file) + 16 + p.caplen
  {
    assert (file + [p])[..|file|] == file;
  }

  lemma AppendToLast(files: seq<seq<Packet>>, p: Packet, limit: nat)
    requires files != [] && Greedy(files, limit)
    ensures var n := |files| - 1; var grown := files[n := files[n] + [p]];
            && Flatten(grown) == Flatten(files) + [p]
            && Used(grown[n]) == Used(files[n]) + PACKET_HEADER + p.caplen
            && (Used(grown[n]) <= limit ==> Greedy(grown, limit))
  {
    FlattenAppend(files, files, p);
    UsedSnoc(files[|files| - 1], p);
    hide Used, Flatten;
  }

  lemma StartFile(files: seq<seq<Packet>>, p: Packet, limit: nat)
    requires Greedy(files, limit) && limit >= MIN_CHUNK_SIZE && Captured(p)
    ensures Flatten(files + [[p]]) == Flatten(files) + [p] && Used([p]) == PACKET_HEADER + p.caplen
    ensures (files == [] || Used(files[|files| - 1]) + PACKET_HEADER + p.caplen > limit)
            ==> Greedy(files + [[p]], limit)
    ensures Flatten([]) == [] && Used([]) == 0
  {
    FlattenSnoc(files, [p]);
    UsedSnoc([], p);
    assert [] + [p] == [p];
    assert Used([]) == 0 && Flatten([]) == [];
    hide *;
    if files == [] || Used(files[|files| - 1]) + PACKET_HEADER + p.caplen > limit {
      GreedySnoc(files, [p], limit);
    }
  }

  lemma GreedySnoc(files: seq<seq<Packet>>, file: seq<Packet>, limit: nat)
    requires Greedy(files, limit) && file != [] && Used(file) <= limit
    requires files == [] || Used(files[|files| - 1]) + PACKET_HEADER + file[0].caplen > limit
    ensures Greedy(files + [file], limit)
  {
    hide Used;
  }

  lemma FlattenSnoc(files: seq<seq<Packet>>, file: seq<Packet>)
    ensures Flatten(files + [file]) == Flatten(files) + file
  {
    assert (files + [file])[..|files|] == files;
  }

  /** Writing to the last file appends to the whole stream, whether the file is new or not. */
  lemma FlattenAppend(before: seq<seq<Packet>>, files: seq<seq<Packet>>, p: Packet)
    requires files != [] && (files == before || files == before + [[]])
    ensures Flatten(files[|files| - 1 := files[|files| - 1] + [p]]) == Flatten(before) + [p]
  {
    var n := |files| - 1;
    var front, last := files[..n], files[n];
    assert files == front + [last] && files[n := last + [p]] == front + [last + [p]];
    FlattenSnoc(front, last);
    FlattenSnoc(front, last + [p]);
    if files != before {
      FlattenSnoc(before, []);
    }
  }

  /** Handles a whole stream. */
  method Split(packets: seq<Packet>, limit: nat) returns (files: seq<seq<Packet>>)
    requires limit >= MIN_CHUNK_SIZE && forall i :: 0 <= i < |packets| ==> Captured(packets[i])
    ensures Flatten(files) == packets && Greedy(files, limit)
    ensures forall i :: 0 <= i < |files| ==> SizeOnDisk(files[i]) <= limit
  {
    var chunker := new Chunker(limit);
    for i := 0 to |packets|
      invariant chunker.Valid() && chunker.limit == limit && fresh(chunker)
      invariant Flatten(chunker.files) == packets[..i]
    {
      chunker.HandlePacket(packets[i]);
      assert packets[..i + 1] == packets[..i] + [packets[i]];
    }
    files := chunker.files;
    assert packets[..|packets|] == packets;
    forall i | 0 <= i < |files| ensures SizeOnDisk(files[i]) <= limit {
      FlattenElements(files, i);
      FitsOnDisk(files[i], limit);
    }
  }

  lemma {:induction false} FlattenElements(files: seq<seq<Packet>>, i: nat)
    requires i < |files| && forall k :: 0 <= k < |Flatten(files)| ==> Captured(Flatten(files)[k])
    ensures forall k :: 0 <= k < |files[i]| ==> Captured(files[i][k])
  {
    var n := |files| - 1;
    var f := Flatten(files[..n]);
    assert forall k :: 0 <= k < |f| ==> f[k] == Flatten(files)[k];
    if i < n {
      FlattenElements(files[..n], i);
    } else {
      forall k | 0 <= k < |files[i]| ensures Captured(files[i][k]) {
        assert files[i][k] == Flatten(files)[|f| + k];
      }
    }
  }

  lemma {:induction false} RecordsAgainstUsed(file: seq<Packet>)
    requires forall k :: 0 <= k < |file| ==> Captured(file[k])
    ensures Records(file) + 8 * |file| == Used(file)
    ensures Records(file) <= (RECORD_HEADER + MAX_SNAPLEN) * |file|
  {
    if file != [] {
      RecordsAgainstUsed(file[..|file| - 1]);
    }
  }

  /** Although the accounting knows neither the file header nor the record header, a file
      within the accounted limit is within the limit on disk: the accounting is 8 bytes too
      high per packet, which covers the file header from the third packet on, and fewer
      packets cannot fill the smallest limit. */
  lemma FitsOnDisk(file: seq<Packet>, limit: nat)
    requires limit >= MIN_CHUNK_SIZE && Used(file) <= limit
    requires forall k :: 0 <= k < |file| ==> Captured(file[k])
    ensures SizeOnDisk(file) <= limit
  {
    RecordsAgainstUsed(file);
  }

  // ----- the split is determined by the stream

  lemma {:induction false} UsedMonotonic(file: seq<Packet>, k: nat)
    requires k <= |file|
    ensures Used(file[..k]) <= Used(file)
  {
    if k < |file| {
      UsedMonotonic(file[..|file| - 1], k);
      assert file[..|file| - 1][..k] == file[..k];
    } else {
      assert file[..k] == file;
    }
  }

  lemma {:induction false} FlattenHead(files: seq<seq<Packet>>)
    requires files != []
    ensures Flatten(files) == files[0] + Flatten(files[1..])
  {
    var n := |files| - 1;
    if n > 0 {
      FlattenHead(files[..n]);
      assert files[..n][1..] == files[1..][..n - 1];
    }
  }

  /** Any two greedy splits of one stream are the same, so Split's result is the only one
      that its contract allows. */
  lemma {:induction false} GreedyUnique(fs: seq<seq<Packet>>, gs: seq<seq<Packet>>, limit: nat)
    requires Greedy(fs, limit) && Greedy(gs, limit) && Flatten(fs) == Flatten(gs)
    ensures fs == gs
    decreases |fs|
  {
    if fs != [] {
      FlattenHead(fs);
    }
    if gs != [] {
      FlattenHead(gs);
    }
    if fs != [] && gs != [] {
      FirstFileNoLonger(fs, gs, limit);
      FirstFileNoLonger(gs, fs, limit);
      SamePrefix(fs[0], Flatten(fs[1..]), gs[0], Flatten(gs[1..]));
      GreedyTail(fs, limit);
      GreedyTail(gs, limit);
      GreedyUnique(fs[1..], gs[1..], limit);
      hide *;
      assert fs == [fs[0]] + fs[1..] && gs == [gs[0]] + gs[1..];
    }
  }

  lemma SamePrefix(a: seq<Packet>, b: seq<Packet>, c: seq<Packet>, d: seq<Packet>)
    requires a + b == c + d && |a| == |c|
    ensures a == c && b == d
  {
    assert a == (a + b)[..|a|] && c == (c + d)[..|c|];
    assert b == (a + b)[|a|..] && d == (c + d)[|c|..];
  }

  lemma GreedyTail(files: seq<seq<Packet>>, limit: nat)
    requires files != [] && Greedy(files, limit)
    ensures Greedy(files[1..], limit)
  {
    hide Used;
    var rest := files[1..];
    forall i | 0 <= i < |rest| - 1
      ensures Used(rest[i]) + PACKET_HEADER + rest[i + 1][0].caplen > limit
    {
      assert rest[i] == files[i + 1] && rest[i + 1] == files[i + 1 + 1];
    }
  }

  lemma FirstFileNoLonger(fs: seq<seq<Packet>>, gs: seq<seq<Packet>>, limit: nat)
    requires Greedy(fs, limit) && Greedy(gs, limit) && Flatten(fs) == Flatten(gs)
    requires fs != [] && gs != []
    ensures |fs[0]| <= |gs[0]|
  {
    FlattenHead(fs);
    FlattenHead(gs);
    StartOfStream(fs[0], Flatten(fs[1..]), gs[0], Flatten(gs[1..]));
    if |gs| > 1 && |gs[0]| < |fs[0]| {
      FlattenHead(gs[1..]);
      assert gs[1..][0] == gs[1];
      Overfull(fs[0], gs[0], gs[1][0]);
    }
    hide Used;
  }

  /** Where the longer of two first files goes on after the shorter one. */
  lemma StartOfStream(f: seq<Packet>, fRest: seq<Packet>, g: seq<Packet>, gRest: seq<Packet>)
    requires f + fRest == g + gRest
    ensures |g| < |f| ==> f[..|g|] == g && gRest != [] && f[|g|] == gRest[0]
  {
    if |g| < |f| {
      assert f[..|g|] == (f + fRest)[..|g|] == (g + gRest)[..|g|] == g;
      assert f[|g|] == (f + fRest)[|g|] == (g + gRest)[|g|] == gRest[0];
    }
  }

  lemma Overfull(f: seq<Packet>, g: seq<Packet>, p: Packet)
    requires |g| < |f| && f[..|g|] == g && f[|g|] == p
    ensures Used(f) >= Used(g) + PACKET_HEADER + p.caplen
  {
    UsedSnoc(g, p);
    assert f[..|g| + 1] == g + [p];
    UsedMonotonic(f, |g| + 1);
  }
}
