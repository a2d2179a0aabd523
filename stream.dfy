/**
 * Streams and channels (include/monkey/mk_stream.h).
 *
 * A channel is the end-point data is written to; it owns an ordered list of
 * streams, the sources of that data. The intrusive `struct mk_list` of the
 * source is modelled as the sequence `Channel.streams`: `mk_list_add` appends
 * at the tail and `mk_list_del` removes exactly the node it is given.
 */
module Streams {
  import opened Common

  /** Stream types (MK_STREAM_*). */
  const StreamRaw: int := 0
  const StreamIov: int := 1
  const StreamPtr: int := 2
  const StreamFile: int := 3
  const StreamSocket: int := 4

  /**
   * What `void *buffer` points to. For an IOV stream the source reads it as a
   * `struct mk_iov` (only `total_len` matters here), for a PTR stream as an
   * `mk_ptr_t` (only `len` matters); any other stream keeps it opaque.
   */
  datatype Buffer = IovBuffer(totalLen: Uint64) | PtrBuffer(len: Uint64) | RawBuffer(address: nat)

  /** A callback function pointer, by name; `NoCallback` is NULL. */
  datatype Callback = NoCallback | Callback(name: string)

  /** No stream occurs twice in a list (an intrusive list node is linked at most once). */
  ghost predicate Distinct(s: seq<Stream>) {
    forall i, j :: 0 <= i < j < |s| ==> s[i] != s[j]
  }

  /** `s` with every occurrence of `x` left out, the others in their order. */
  ghost function Without(s: seq<Stream>, x: Stream): seq<Stream> {
    if s == [] then []
    else (if s[0] == x then [] else [s[0]]) + Without(s[1..], x)
  }

  /** The position of `x` in `s`. */
  function IndexOf(s: seq<Stream>, x: Stream): (k: nat)
    requires x in s
    ensures k < |s| && s[k] == x
    ensures forall j :: 0 <= j < k ==> s[j] != x
  {
    if s[0] == x then 0 else 1 + IndexOf(s[1..], x)
  }

  /** Leaving out a stream that occurs once is cutting it out at its position. */
  lemma {:induction false} WithoutAt(s: seq<Stream>, k: nat)
    requires k < |s| && Distinct(s)
    ensures Without(s, s[k]) == s[..k] + s[k + 1..]
  {
    if k == 0 {
      WithoutAbsent(s[1..], s[0]);
      assert s[1..] == s[..0] + s[1..];
    } else {
      WithoutAt(s[1..], k - 1);
      assert s[1..][k - 1] == s[k];
      assert s[0] != s[k];
      calc {
        Without(s, s[k]);
        [s[0]] + Without(s[1..], s[1..][k - 1]);
        [s[0]] + (s[1..][..k - 1] + s[1..][k..]);
        { assert [s[0]] + s[1..][..k - 1] == s[..k]; assert s[1..][k..] == s[k + 1..]; }
        s[..k] + s[k + 1..];
      }
    }
  }

  /** Leaving out a stream that is not there changes nothing. */
  lemma {:induction false} WithoutAbsent(s: seq<Stream>, x: Stream)
    requires x !in s
    ensures Without(s, x) == s
  {
    if s != [] {
      WithoutAbsent(s[1..], x);
    }
  }

  /** Unlinking keeps the other streams, in order, and drops exactly one. */
  lemma {:induction false} WithoutKeepsOthers(s: seq<Stream>, x: Stream)
    requires Distinct(s) && x in s
    ensures |Without(s, x)| == |s| - 1
    ensures x !in Without(s, x)
    ensures forall y :: y in Without(s, x) <==> y in s && y != x
    ensures Distinct(Without(s, x))
  {
    var k := IndexOf(s, x);
    WithoutAt(s, k);
    var r := s[..k] + s[k + 1..];
    assert forall i :: 0 <= i < |r| ==> r[i] == if i < k then s[i] else s[i + 1];
    forall y
      ensures y in r <==> y in s && y != x
    {
      if y in s && y != x {
        var i :| 0 <= i < |s| && s[i] == y;
        assert i != k;
        if i < k { assert r[i] == y; } else { assert r[i - 1] == y; }
      }
    }
  }

  /** struct mk_channel. */
  class Channel {
    var kind: int
    var fd: int
    var status: int
    var streams: seq<Stream>

    ghost predicate Valid()
      reads this
    {
      Distinct(streams)
    }

    /** A channel with no streams yet (the state mk_channel_new sets up). */
    constructor (kind: int, fd: int)
      ensures Valid()
      ensures this.kind == kind && this.fd == fd && streams == []
    {
      this.kind := kind;
      this.fd := fd;
      status := 0;
      streams := [];
    }

    /** mk_channel_append_stream: link `stream` at the tail of the list. */
    method AppendStream(stream: Stream)
      requires Valid() && stream !in streams
      modifies this`streams
      ensures Valid()
      ensures streams == old(streams) + [stream]
    {
      streams := streams + [stream];
    }
  }

  /** struct mk_stream. */
  class Stream {
    var kind: int
    var fd: int
    var preserve: bool
    var encoding: int
    var bytesTotal: Uint64
    var bytesOffset: int
    var channel: Channel?
    var buffer: Buffer
    var data: nat
    var cbFinished: Callback
    var cbOk: Callback
    var cbBytesConsumed: Callback
    var cbException: Callback

    /** A stream not yet set up, linked into no channel. */
    constructor (fd: int, encoding: int, cbOk: Callback)
      ensures this.fd == fd && this.encoding == encoding && this.cbOk == cbOk
      ensures channel == null
    {
      this.fd := fd;
      this.encoding := encoding;
      this.cbOk := cbOk;
      kind := StreamRaw;
      preserve := false;
      bytesTotal := 0;
      bytesOffset := 0;
      channel := null;
      buffer := RawBuffer(0);
      data := 0;
      cbFinished := NoCallback;
      cbBytesConsumed := NoCallback;
      cbException := NoCallback;
    }

    /**
     * mk_stream_set: initialise the stream and link it at the tail of
     * `channel`'s list. The caller hands an iov for an IOV stream and a ptr
     * for a PTR stream, and the stream must not already be linked there.
     */
    method Set(kind: int, channel: Channel, buffer: Buffer, size: Uint64, data: nat,
               cbFinished: Callback, cbBytesConsumed: Callback, cbException: Callback)
      requires channel.Valid() && this !in channel.streams
      requires kind == StreamIov ==> buffer.IovBuffer?
      requires kind == StreamPtr ==> buffer.PtrBuffer?
      modifies this, channel`streams
      ensures this.kind == kind && this.channel == channel
      ensures this.buffer == buffer && this.data == data
      ensures bytesOffset == 0 && !preserve
      ensures kind == StreamIov ==> bytesTotal == buffer.totalLen
      ensures kind == StreamPtr ==> bytesTotal == buffer.len
      ensures kind != StreamIov && kind != StreamPtr ==> bytesTotal == size
      ensures this.cbFinished == cbFinished && this.cbBytesConsumed == cbBytesConsumed
      ensures this.cbException == cbException
      ensures fd == old(fd) && encoding == old(encoding) && cbOk == old(cbOk)
      ensures channel.Valid() && channel.streams == old(channel.streams) + [this]
    {
      this.kind := kind;
      this.channel := channel;
      bytesOffset := 0;
      this.buffer := buffer;
      this.data := data;
      preserve := false;

      if kind == StreamIov {
        bytesTotal := buffer.totalLen;
      } else if kind == StreamPtr {
        bytesTotal := buffer.len;
      } else {
        bytesTotal := size;
      }

      this.cbFinished := cbFinished;
      this.cbBytesConsumed := cbBytesConsumed;
      this.cbException := cbException;

      channel.AppendStream(this);
    }

    /**
     * mk_stream_unlink: remove this stream from the list it is linked into,
     * `owner`'s; the others keep their order.
     */
    method Unlink(owner: Channel)
      requires owner.Valid() && this in owner.streams
      modifies owner`streams
      ensures owner.Valid()
      ensures owner.streams == Without(old(owner.streams), this)
      ensures this !in owner.streams && |owner.streams| == |old(owner.streams)| - 1
    {
      var k := IndexOf(owner.streams, this);
      WithoutAt(owner.streams, k);
      WithoutKeepsOthers(owner.streams, this);
      owner.streams := owner.streams[..k] + owner.streams[k + 1..];
    }

    /**
     * mk_stream_bytes_consumed: lower the remaining byte count by `bytes`.
     * There is no guard: the `size_t` subtraction wraps modulo 2^64.
     */
    method BytesConsumed(bytes: Long)
      modifies this`bytesTotal
      ensures bytesTotal == (old(bytesTotal) - bytes) % TwoTo64
      ensures 0 <= bytes <= old(bytesTotal) ==> bytesTotal == old(bytesTotal) - bytes
    {
      bytesTotal := (bytesTotal - bytes) % TwoTo64;
    }
  }
}
