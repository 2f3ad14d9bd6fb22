/** The request fingerprint (src/modules/meetings/manage-anonymous-meetings.use-case.ts): the bytes fed
    to the hash are the parts, each prefixed by its byte length in decimal and a colon. Text is its
    UTF-8 bytes; the hash itself is not modelled. */
module Fingerprint {
  import opened ChatTypes

  type Byte = x: nat | x < 256

  type Bytes = seq<Byte>

  const COLON: Byte := 58
  const ZERO: Byte := 48

  /** The decimal notation of a number. */
  function Decimal(n: nat): (digits: Bytes)
    ensures digits != [] && forall digit <- digits :: ZERO <= digit < ZERO + 10
  {
    if n < 10 then [ZERO + n] else Decimal(n / 10) + [ZERO + n % 10]
  }

  function Encode(parts: seq<Bytes>): Bytes {
    if parts == [] then [] else Decimal(|parts[0]|) + [COLON] + parts[0] + Encode(parts[1..])
  }

  /** The loop of `fingerprint`; `input` is everything passed to `update`. */
  method HashInput(parts: seq<Bytes>) returns (input: Bytes)
    ensures input == Encode(parts)
  {
    input := [];
    for i := 0 to |parts|
      invariant input + Encode(parts[i..]) == Encode(parts)
    {
      var value := parts[i];
      assert parts[i..] == [value] + parts[i + 1..];
      ghost var before := input;
      input := input + Decimal(|value|);
      input := input + [COLON];
      input := input + value;
      assert input == before + (Decimal(|value|) + [COLON] + value);
    }
  }

  // ---------------------------------------------------------------------------------------------
  // A decoder
  // ---------------------------------------------------------------------------------------------

  function Number(digits: Bytes): nat {
    if digits == [] then 0
    else
      var last := digits[|digits| - 1];
      Number(digits[..|digits| - 1]) * 10 + if last >= ZERO then last - ZERO else 0
  }

  function ColonAt(bytes: Bytes): (index: Option<nat>)
    ensures index.Some? ==> index.value < |bytes| && bytes[index.value] == COLON
    ensures index.Some? ==> forall i | 0 <= i < index.value :: bytes[i] != COLON
  {
    if bytes == [] then None
    else if bytes[0] == COLON then Some(0)
    else
      match ColonAt(bytes[1..])
      case None => None
      case Some(index) => Some(index + 1)
  }

  function Decode(bytes: Bytes): Option<seq<Bytes>> {
    if bytes == [] then Some([])
    else
      var colon := ColonAt(bytes);
      if colon.None? then None
      else
        var start := colon.value + 1;
        var end := start + Number(bytes[..colon.value]);
        if end > |bytes| then None
        else
          match Decode(bytes[end..])
          case None => None
          case Some(rest) => Some([bytes[start..end]] + rest)
  }

  lemma {:induction false} NumberReadsDecimal(n: nat)
    ensures Number(Decimal(n)) == n
  {
    if n >= 10 {
      NumberReadsDecimal(n / 10);
      assert Decimal(n)[..|Decimal(n)| - 1] == Decimal(n / 10);
    }
  }

  lemma {:induction false} ColonAfter(prefix: Bytes, rest: Bytes)
    requires COLON !in prefix
    ensures ColonAt(prefix + [COLON] + rest) == Some(|prefix|)
    decreases |prefix|
  {
    var bytes := prefix + [COLON] + rest;
    if prefix != [] {
      assert bytes[0] == prefix[0] && prefix[0] in prefix;
      assert bytes[1..] == prefix[1..] + [COLON] + rest;
      ColonAfter(prefix[1..], rest);
    }
  }

  /** The decoder inverts the encoding. */
  lemma {:induction false} DecodeEncode(parts: seq<Bytes>)
    ensures Decode(Encode(parts)) == Some(parts)
    decreases |parts|
  {
    if parts != [] {
      var first, rest := parts[0], Encode(parts[1..]);
      var digits := Decimal(|first|);
      var bytes := Encode(parts);
      assert bytes == digits + [COLON] + (first + rest);
      ColonAfter(digits, first + rest);
      NumberReadsDecimal(|first|);
      var start := |digits| + 1;
      assert bytes[..|digits|] == digits;
      assert bytes[start..start + |first|] == first;
      assert bytes[start + |first|..] == rest;
      DecodeEncode(parts[1..]);
      assert parts == [first] + parts[1..];
    }
  }

  /** Two part lists of any lengths have the same hash input only if they are the same list. */
  lemma EncodingIsInjective(a: seq<Bytes>, b: seq<Bytes>)
    requires Encode(a) == Encode(b)
    ensures a == b
  {
    DecodeEncode(a);
    DecodeEncode(b);
  }

  /** The encoding is the concatenation of its parts', each the length in decimal, a colon and the bytes. */
  lemma {:induction false} EncodingConcatenates(a: seq<Bytes>, b: seq<Bytes>)
    ensures Encode(a + b) == Encode(a) + Encode(b)
    decreases |a|
  {
    if a == [] {
      assert a + b == b;
    } else {
      assert (a + b)[0] == a[0] && (a + b)[1..] == a[1..] + b;
      EncodingConcatenates(a[1..], b);
    }
  }

  lemma OnePartEncodes(part: Bytes)
    ensures Encode([part]) == Decimal(|part|) + [COLON] + part && COLON == 58
  {
    assert [part][1..] == [] && Encode([]) == [];
    assert Decimal(|part|) + [COLON] + part + [] == Decimal(|part|) + [COLON] + part;
  }

  /** Decimal notation: digits only, the number itself, and no leading zero. */
  lemma {:induction false} DecimalIsCanonical(n: nat)
    ensures Number(Decimal(n)) == n
    ensures forall digit <- Decimal(n) :: 48 <= digit <= 57
    ensures n > 0 ==> Decimal(n)[0] != 48
  {
    NumberReadsDecimal(n);
    if n >= 10 { DecimalIsCanonical(n / 10); }
  }

  // ---------------------------------------------------------------------------------------------
  // The two requests
  // ---------------------------------------------------------------------------------------------

  /** A keyed digest: the key version and the digest in hexadecimal. */
  datatype Digest = Digest(version: nat, hex: Bytes)

  function CreateParts(mode: Bytes, displayName: Bytes, host: Digest, invite: Digest, binding: Bytes): seq<Bytes> {
    [mode, displayName, Decimal(host.version), host.hex, Decimal(invite.version), invite.hex, binding]
  }

  function Flatten(candidates: seq<Digest>): seq<Bytes> {
    if candidates == [] then []
    else [Decimal(candidates[0].version), candidates[0].hex] + Flatten(candidates[1..])
  }

  function JoinParts(meetingId: Bytes, displayName: Bytes, candidates: seq<Digest>, binding: Bytes): seq<Bytes> {
    [meetingId, displayName] + Flatten(candidates) + [binding]
  }

  /** What is hashed for a creation, in order: mode, name, version and digest of the host capability and of
      the invite capability, and the device binding. */
  lemma CreateInputIs(mode: Bytes, displayName: Bytes, host: Digest, invite: Digest, binding: Bytes)
    ensures Encode(CreateParts(mode, displayName, host, invite, binding))
            == Encode([mode]) + Encode([displayName]) + EncodeDigest(host) + EncodeDigest(invite) + Encode([binding])
  {
    var h, i := [Decimal(host.version), host.hex], [Decimal(invite.version), invite.hex];
    assert CreateParts(mode, displayName, host, invite, binding) == [mode] + [displayName] + h + i + [binding];
    EncodingConcatenates([mode], [displayName]);
    EncodingConcatenates([mode] + [displayName], h);
    EncodingConcatenates([mode] + [displayName] + h, i);
    EncodingConcatenates([mode] + [displayName] + h + i, [binding]);
  }

  function EncodeDigest(digest: Digest): Bytes {
    Encode([Decimal(digest.version), digest.hex])
  }

  /** And for a join: meeting, name, every candidate in order, and the device binding. */
  lemma JoinInputIs(meetingId: Bytes, displayName: Bytes, candidates: seq<Digest>, binding: Bytes)
    ensures Encode(JoinParts(meetingId, displayName, candidates, binding))
            == Encode([meetingId]) + Encode([displayName]) + EncodeAll(candidates) + Encode([binding])
  {
    FlattenEncodes(candidates);
    assert [meetingId, displayName] == [meetingId] + [displayName];
    EncodingConcatenates([meetingId], [displayName]);
    EncodingConcatenates([meetingId] + [displayName], Flatten(candidates));
    EncodingConcatenates([meetingId] + [displayName] + Flatten(candidates), [binding]);
  }

  function EncodeAll(digests: seq<Digest>): Bytes {
    if digests == [] then [] else EncodeDigest(digests[0]) + EncodeAll(digests[1..])
  }

  lemma {:induction false} FlattenEncodes(digests: seq<Digest>)
    ensures Encode(Flatten(digests)) == EncodeAll(digests)
  {
    if digests != [] {
      FlattenEncodes(digests[1..]);
      EncodingConcatenates([Decimal(digests[0].version), digests[0].hex], Flatten(digests[1..]));
    }
  }

  lemma DecimalIsInjective(m: nat, n: nat)
    requires Decimal(m) == Decimal(n)
    ensures m == n
  {
    NumberReadsDecimal(m);
    NumberReadsDecimal(n);
  }

  /** Equal creation inputs mean equal requests, field by field. */
  lemma CreateIsIdentified(mode: Bytes, displayName: Bytes, host: Digest, invite: Digest, binding: Bytes,
                           mode': Bytes, displayName': Bytes, host': Digest, invite': Digest, binding': Bytes)
    requires Encode(CreateParts(mode, displayName, host, invite, binding))
             == Encode(CreateParts(mode', displayName', host', invite', binding'))
    ensures mode == mode' && displayName == displayName' && host == host' && invite == invite' && binding == binding'
  {
    var a := CreateParts(mode, displayName, host, invite, binding);
    var b := CreateParts(mode', displayName', host', invite', binding');
    EncodingIsInjective(a, b);
    assert a[0] == b[0] && a[1] == b[1] && a[2] == b[2] && a[3] == b[3] && a[4] == b[4] && a[5] == b[5] && a[6] == b[6];
    DecimalIsInjective(host.version, host'.version);
    DecimalIsInjective(invite.version, invite'.version);
  }

  lemma {:induction false} FlattenIsInjective(a: seq<Digest>, b: seq<Digest>)
    requires Flatten(a) == Flatten(b)
    ensures a == b
    decreases |a|
  {
    if a != [] && b != [] {
      var x, y := Flatten(a), Flatten(b);
      assert x[0] == y[0] && x[1] == y[1] && x[2..] == Flatten(a[1..]) && y[2..] == Flatten(b[1..]);
      DecimalIsInjective(a[0].version, b[0].version);
      FlattenIsInjective(a[1..], b[1..]);
      assert a == [a[0]] + a[1..] && b == [b[0]] + b[1..];
    }
  }

  /** Equal join inputs mean equal requests, whatever the number of candidate digests. */
  lemma JoinIsIdentified(meetingId: Bytes, displayName: Bytes, candidates: seq<Digest>, binding: Bytes,
                         meetingId': Bytes, displayName': Bytes, candidates': seq<Digest>, binding': Bytes)
    requires Encode(JoinParts(meetingId, displayName, candidates, binding))
             == Encode(JoinParts(meetingId', displayName', candidates', binding'))
    ensures meetingId == meetingId' && displayName == displayName' && candidates == candidates' && binding == binding'
  {
    var a := JoinParts(meetingId, displayName, candidates, binding);
    var b := JoinParts(meetingId', displayName', candidates', binding');
    EncodingIsInjective(a, b);
    assert a[0] == b[0] && a[1] == b[1] && a[|a| - 1] == b[|b| - 1];
    assert a[2..|a| - 1] == Flatten(candidates) && b[2..|b| - 1] == Flatten(candidates');
    FlattenIsInjective(candidates, candidates');
  }
}
