/** The firmware download: HTTP data events appended in place to a buffer of fixed capacity. */
module Download {
  import opened Bytes
  import opened DfuClients
  import opened DfuProtocol

  const MAX_BIN: nat := 500000
  const MAX_DAT: nat := 1024

  /** One data event: a piece that does not fit is dropped whole. */
  function Appended(capacity: nat, body: seq<byte>, piece: seq<byte>): seq<byte>
  {
    if |body| + |piece| <= capacity then body + piece else body
  }

  /** The buffer after all the events of a response. */
  function Received(capacity: nat, pieces: seq<seq<byte>>): seq<byte>
  {
    if pieces == [] then []
    else Appended(capacity, Received(capacity, pieces[..|pieces| - 1]), pieces[|pieces| - 1])
  }

  class PsramBuf {
    const data: array<byte>
    var len: nat

    ghost predicate Valid()
      reads this
    {
      len <= data.Length
    }

    ghost function Contents(): seq<byte>
      requires Valid()
      reads this, data
    {
      data[..len]
    }

    constructor (capacity: nat)
      ensures Valid() && Contents() == [] && data.Length == capacity && fresh(data)
    {
      data := new byte[capacity];
      len := 0;
    }

    /** The HTTP client's data event. */
    method OnData(piece: seq<byte>)
      requires Valid()
      modifies this`len, data
      ensures Valid()
      ensures Contents() == Appended(data.Length, old(Contents()), piece)
    {
      if len + |piece| <= data.Length {
        forall i | 0 <= i < |piece| {
          data[len + i] := piece[i];
        }
        len := len + |piece|;
        assert data[..len] == old(Contents()) + piece;
      }
    }
  }

  function Downloaded(pieces: seq<seq<byte>>, transferOk: bool, status: int, capacity: nat): seq<byte>
  {
    if transferOk && status == 200 then Received(capacity, pieces) else []
  }

  /** download_to_psram: the body, or nothing if the transfer failed, the status was not 200 or the body was empty. */
  method DownloadToPsram(pieces: seq<seq<byte>>, transferOk: bool, status: int, capacity: nat) returns (out: seq<byte>)
    ensures out == Downloaded(pieces, transferOk, status, capacity)
  {
    var buf := new PsramBuf(capacity);
    for i := 0 to |pieces|
      invariant buf.Valid() && fresh(buf.data) && buf.data.Length == capacity
      invariant buf.Contents() == Received(capacity, pieces[..i])
    {
      buf.OnData(pieces[i]);
      assert pieces[..i + 1][..i] == pieces[..i];
    }
    assert pieces[..|pieces|] == pieces;
    if !transferOk || status != 200 || buf.len == 0 {
      return [];
    }
    out := buf.data[..buf.len];
  }

  /** For every split of the body into events: the buffer never overflows, and it is the body exactly when the body fits. */
  lemma {:induction false} DownloadFidelity(capacity: nat, pieces: seq<seq<byte>>)
    ensures |Received(capacity, pieces)| <= capacity
    ensures |Received(capacity, pieces)| <= |Flatten(pieces)|
    ensures Received(capacity, pieces) == Flatten(pieces) <==> |Flatten(pieces)| <= capacity
  {
    if pieces != [] {
      DownloadFidelity(capacity, pieces[..|pieces| - 1]);
    }
  }

  /** Something is received exactly if some piece fits by itself. */
  predicate SomeFits(capacity: nat, pieces: seq<seq<byte>>)
  {
    exists i :: 0 <= i < |pieces| && 0 < |pieces[i]| <= capacity
  }

  lemma {:induction false} ReceivesSomething(capacity: nat, pieces: seq<seq<byte>>)
    ensures Received(capacity, pieces) != [] <==> SomeFits(capacity, pieces)
  {
    if pieces != [] {
      var init, last := pieces[..|pieces| - 1], pieces[|pieces| - 1];
      ReceivesSomething(capacity, init);
      DownloadFidelity(capacity, init);
      if SomeFits(capacity, pieces) && !(0 < |last| <= capacity) {
        var i :| 0 <= i < |pieces| && 0 < |pieces[i]| <= capacity;
        assert init[i] == pieces[i];
      }
      if SomeFits(capacity, init) {
        var i :| 0 <= i < |init| && 0 < |init[i]| <= capacity;
        assert pieces[i] == init[i];
      }
    }
  }

  /** An update is begun exactly if both responses are complete, have status 200 and bring a piece that fits; else it has failed. */
  lemma UpdateBeginsIff(
      c: Client, bin: seq<seq<byte>>, binOk: bool, binStatus: int, dat: seq<seq<byte>>, datOk: bool, datStatus: int)
    ensures var d := c.Step(Start(Downloaded(bin, binOk, binStatus, MAX_BIN), Downloaded(dat, datOk, datStatus, MAX_DAT)));
            && (d.state.CONNECTING? <==>
                  binOk && binStatus == 200 && SomeFits(MAX_BIN, bin) && datOk && datStatus == 200 && SomeFits(MAX_DAT, dat))
            && (d.state.CONNECTING? || d.state.FAILED?) && d.writes == c.writes
  {
    ReceivesSomething(MAX_BIN, bin);
    ReceivesSomething(MAX_DAT, dat);
    StartNeedsBoth(c, Downloaded(bin, binOk, binStatus, MAX_BIN), Downloaded(dat, datOk, datStatus, MAX_DAT), []);
  }

  /**
    From the server's response to the watch: for every way the two bodies arrive in events, a run of the update that
    the client calls COMPLETE has put the two buffers on the watch, and each is the response body exactly if that fits
    its buffer. A longer body is sent with pieces missing.
   */
  lemma UpdateCarriesTheBody(
      bin: seq<seq<byte>>, dat: seq<seq<byte>>, ctrl: nat, pkt: nat, alsoLast: bool, acts: seq<Action>)
    requires Received(MAX_BIN, bin) != [] && Received(MAX_DAT, dat) != []
    requires ctrl != 0 && pkt != 0 && ctrl != pkt
    requires Opening(Received(MAX_BIN, bin), Received(MAX_DAT, dat), ctrl, pkt, alsoLast).Runs(acts)
    ensures var s := Opening(Received(MAX_BIN, bin), Received(MAX_DAT, dat), ctrl, pkt, alsoLast).Exec(acts);
            s.c.state.COMPLETE? ==>
              && s.w.received == Received(MAX_BIN, bin) && s.w.init == Received(MAX_DAT, dat)
              && Flatten(Chunks(s.c.bin, 0, ChunkCount(|s.c.bin|))) == Received(MAX_BIN, bin)
              && (s.w.received == Flatten(bin) <==> |Flatten(bin)| <= MAX_BIN)
              && (s.w.init == Flatten(dat) <==> |Flatten(dat)| <= MAX_DAT)
  {
    DownloadFidelity(MAX_BIN, bin);
    DownloadFidelity(MAX_DAT, dat);
    RunIsSafe(Received(MAX_BIN, bin), Received(MAX_DAT, dat), ctrl, pkt, alsoLast, acts);
    var image := Received(MAX_BIN, bin);
    ChunksConcat(image, ChunkCount(|image|));
    assert image[..|image|] == image;
  }

  /** What is missing may be in the middle: a piece that does not fit is skipped and a shorter one after it is kept. */
  lemma MiddleGoesMissing(capacity: nat, a: seq<byte>, b: seq<byte>, c: seq<byte>)
    requires |a| + |b| > capacity >= |a| + |c|
    ensures Received(capacity, [a, b, c]) == a + c
  {
    assert [a, b, c][..2] == [a, b] && [a, b][..1] == [a] && [a][..0] == [];
    assert Received(capacity, []) == [];
    assert Received(capacity, [a]) == [] + a == a;
    assert Received(capacity, [a, b]) == a;
  }
}
