/** What the packet checksum does and does not catch. `Packets.TrustworthyIff` ties
    `Believable`, used throughout, to the decoded packet. */
module Checksums {
  import opened Constants
  import opened Packets

  lemma {:induction false} SumConcat(a: seq<byte>, b: seq<byte>)
    ensures Sum(a + b) == Sum(a) + Sum(b)
  {
    if b == [] {
      assert a + b == a;
    } else {
      assert (a + b)[..|a + b| - 1] == a + b[..|b| - 1];
      SumConcat(a, b[..|b| - 1]);
    }
  }

  lemma SumSplit(a: seq<byte>, i: nat)
    requires i < |a|
    ensures Sum(a) == Sum(a[..i]) + a[i] + Sum(a[i + 1..])
  {
    assert a == a[..i] + [a[i]] + a[i + 1..];
    SumConcat(a[..i] + [a[i]], a[i + 1..]);
    SumConcat(a[..i], [a[i]]);
    assert [a[i]][..0] == [];
  }

  /** `compute_checksum` gives the one byte that completes a body. */
  lemma ChecksumIsUnique(body: seq<byte>, c: byte)
    ensures VerifyChecksum(body + [c]) <==> c == ComputeChecksum(body)
  {
    assert (body + [c])[..|body|] == body;
  }

  /** A byte string is believed by its declared span alone. */
  function Span(data: seq<byte>): seq<byte>
    requires |data| > PAYLOAD_LENGTH && |data| >= data[PAYLOAD_LENGTH] + HEADER_LENGTH
  {
    data[..data[PAYLOAD_LENGTH] + HEADER_LENGTH]
  }

  /** No single changed byte of the declared span survives, the length byte apart. */
  lemma OneByteIsCaught(data: seq<byte>, i: nat, b: byte)
    requires Believable(data)
    requires i < data[PAYLOAD_LENGTH] + HEADER_LENGTH && i != PAYLOAD_LENGTH && b != data[i]
    ensures !Believable(data[i := b])
  {
    var span, span' := Span(data), Span(data[i := b]);
    assert span'[..i] == span[..i] && span'[i + 1..] == span[i + 1..];
    SumSplit(span, i);
    SumSplit(span', i);
  }

  /** A byte past the declared span is not covered at all. */
  lemma TailIsNotCovered(data: seq<byte>, i: nat, b: byte)
    requires Believable(data)
    requires data[PAYLOAD_LENGTH] + HEADER_LENGTH <= i < |data|
    ensures Believable(data[i := b])
  {
    assert Span(data[i := b]) == Span(data);
  }

  /** Shortening the length byte by one survives exactly when the byte that falls out of the
      span is 0xFF: it takes 255 out of the sum with it. */
  lemma ShortenedLengthSurvivesIff(data: seq<byte>)
    requires Believable(data) && data[PAYLOAD_LENGTH] > 0
    ensures var shorter := data[PAYLOAD_LENGTH := data[PAYLOAD_LENGTH] - 1];
            Believable(shorter) <==> data[data[PAYLOAD_LENGTH] + HEADER_LENGTH - 1] == 255
  {
    var n := data[PAYLOAD_LENGTH] + HEADER_LENGTH;
    var shorter := data[PAYLOAD_LENGTH := data[PAYLOAD_LENGTH] - 1];
    var span, span' := Span(data), Span(shorter);
    assert span[..n - 1][..PAYLOAD_LENGTH] == span'[..PAYLOAD_LENGTH];
    assert span[..n - 1][PAYLOAD_LENGTH + 1..] == span'[PAYLOAD_LENGTH + 1..];
    SumSplit(span[..n - 1], PAYLOAD_LENGTH);
    SumSplit(span', PAYLOAD_LENGTH);
    assert Sum(span) == Sum(span[..n - 1]) + data[n - 1];
  }

  lemma SumsAgree(x: nat, y: nat, tail: nat)
    requires (y + tail) % 256 == 0
    ensures (x + tail) % 256 == 0 <==> x % 256 == y % 256
  {
  }

  /** The head of one believable packet joined to the tail of another of equal declared length,
      at the same point after the length byte, is believed exactly when the heads' sums agree. */
  lemma MisjoinSurvivesIff(a: seq<byte>, b: seq<byte>, k: nat)
    requires Believable(a) && Believable(b)
    requires a[PAYLOAD_LENGTH] == b[PAYLOAD_LENGTH]
    requires PAYLOAD_LENGTH < k <= a[PAYLOAD_LENGTH] + HEADER_LENGTH
    ensures Believable(Reassemble(a[..k], b[k..])) <==> Sum(a[..k]) % 256 == Sum(b[..k]) % 256
  {
    var n := a[PAYLOAD_LENGTH] + HEADER_LENGTH;
    var joined := a[..k] + b[k..];
    var head, head', tail := a[..k], b[..k], b[k..n];
    assert Span(joined) == head + tail && |joined| == |b|;
    assert Span(b) == head' + tail;
    SumConcat(head, tail);
    SumConcat(head', tail);
    SumsAgree(Sum(head), Sum(head'), Sum(tail));
  }
}
