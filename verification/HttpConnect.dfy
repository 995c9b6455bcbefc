/** Reading the response head of an HTTP proxy, up to the first byte behind its blank line. */
module HttpConnect {
  import opened Connections
  import opened Utf8

  const HEAD_LIMIT := 8192

  predicate EndsHead(s: seq<Byte>) {
    |s| >= 4 && s[|s| - 4..] == [13, 10, 13, 10]
  }

  /** Reads byte by byte up to the first blank line, the limit or the end of the stream. */
  method ReadHttpHead(stream: Connection) returns (head: seq<Byte>)
    modifies stream
    ensures old(stream.incoming) == head + stream.incoming && stream.sent == old(stream.sent)
    ensures forall j :: 0 <= j < |head| ==> !EndsHead(head[..j])
    ensures EndsHead(head) || |head| == HEAD_LIMIT || stream.incoming == []
    ensures |head| <= HEAD_LIMIT
  {
    head := [];
    while |head| < HEAD_LIMIT
      invariant old(stream.incoming) == head + stream.incoming && stream.sent == old(stream.sent)
      invariant forall j :: 0 <= j <= |head| ==> !EndsHead(head[..j])
      invariant |head| <= HEAD_LIMIT
    {
      if stream.incoming == [] {
        break;
      }
      var ok, data := stream.ReadExact(1);
      ghost var before := head;
      head := head + data;
      assert forall j :: 0 <= j <= |before| ==> head[..j] == before[..j];
      if EndsHead(head) {
        break;
      }
      assert head[..|head|] == head;
    }
  }
}
