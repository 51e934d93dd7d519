/** The dedup id of a communication-history sighting: a hash over length-prefixed
    fields. Byte strings are strings whose characters stand for bytes. */
module DedupKey {
  import opened Basics
  import Decimal

  datatype Update = Update(
    tenantId: string, messageId: string, senderHash: string, recipientHash: string,
    senderDomainHash: string, senderDomain: string, sentAt: nat)

  /** The fields the consumer cannot do without; the zero time is 0. */
  predicate Complete(u: Update) {
    u.tenantId != "" && u.senderHash != "" && u.recipientHash != "" && u.messageId != "" && u.sentAt != 0
  }

  /** Each of the five fields is needed, and nothing else is. */
  lemma CompleteNeedsEachField(u: Update, domain: string, domainHash: string)
    ensures !Complete(u.(tenantId := "")) && !Complete(u.(senderHash := "")) && !Complete(u.(recipientHash := ""))
    ensures !Complete(u.(messageId := "")) && !Complete(u.(sentAt := 0))
    ensures Complete(u.(senderDomain := domain, senderDomainHash := domainHash)) <==> Complete(u)
  {
  }

  function LenPrefixed(b: string): string {
    Decimal.Render(|b|) + ":" + b + ","
  }

  /** The byte stream that is hashed. */
  function HashInput(u: Update): string {
    LenPrefixed(u.tenantId) + LenPrefixed(u.senderHash) + LenPrefixed(u.recipientHash) + LenPrefixed(u.messageId)
  }

  function DedupId(sha: string -> string, u: Update): string {
    "ch:" + sha(HashInput(u))
  }

  /** A running hash, seen as the bytes written so far. */
  class HashState {
    var written: string

    constructor ()
      ensures written == ""
    {
      written := "";
    }

    method Write(p: string)
      modifies this
      ensures written == old(written) + p
    {
      written := written + p;
    }

    method WriteLenPrefixed(b: string)
      modifies this
      ensures written == old(written) + LenPrefixed(b)
    {
      Write(Decimal.Render(|b|));
      Write(":");
      Write(b);
      Write(",");
    }
  }

  method ComputeDedupId(sha: string -> string, u: Update) returns (id: string)
    ensures id == DedupId(sha, u)
  {
    var h := new HashState();
    h.WriteLenPrefixed(u.tenantId);
    h.WriteLenPrefixed(u.senderHash);
    h.WriteLenPrefixed(u.recipientHash);
    h.WriteLenPrefixed(u.messageId);
    assert h.written == HashInput(u);
    id := "ch:" + sha(h.written);
  }

  /** Unique decodability: whatever follows, a length-prefixed field reads back as
      itself. */
  lemma FieldIsDecodable(a: string, x: string, b: string, y: string)
    requires LenPrefixed(a) + x == LenPrefixed(b) + y
    ensures a == b && x == y
  {
    var na, nb := Decimal.Render(|a|), Decimal.Render(|b|);
    var ra, rb := a + "," + x, b + "," + y;
    assert LenPrefixed(a) + x == na + ":" + ra;
    assert LenPrefixed(b) + y == nb + ":" + rb;
    assert ':' !in na && ':' !in nb;
    SplitsAtFirst(':', na, ra, nb, rb);
    Decimal.RenderIsInjective(|a|, |b|);
    assert a == ra[..|a|] && b == rb[..|b|];
    assert x == ra[|a| + 1..] && y == rb[|b| + 1..];
  }

  /** The hashed bytes determine tenant, sender, recipient and message, and depend on
      nothing else. */
  lemma HashInputIsExact(u: Update, v: Update)
    ensures HashInput(u) == HashInput(v) <==>
            && u.tenantId == v.tenantId && u.senderHash == v.senderHash
            && u.recipientHash == v.recipientHash && u.messageId == v.messageId
  {
    hide LenPrefixed;
    if HashInput(u) == HashInput(v) {
      var u4, v4 := LenPrefixed(u.messageId), LenPrefixed(v.messageId);
      var u3, v3 := LenPrefixed(u.recipientHash) + u4, LenPrefixed(v.recipientHash) + v4;
      var u2, v2 := LenPrefixed(u.senderHash) + u3, LenPrefixed(v.senderHash) + v3;
      assert HashInput(u) == LenPrefixed(u.tenantId) + u2 && HashInput(v) == LenPrefixed(v.tenantId) + v2;
      FieldIsDecodable(u.tenantId, u2, v.tenantId, v2);
      FieldIsDecodable(u.senderHash, u3, v.senderHash, v3);
      FieldIsDecodable(u.recipientHash, u4, v.recipientHash, v4);
      assert u4 == u4 + "" && v4 == v4 + "";
      FieldIsDecodable(u.messageId, "", v.messageId, "");
    }
  }

  /** Two sightings share a dedup id exactly when they are the same sighting, as long
      as the hash does not collide on the two streams; the send time never matters. */
  lemma DedupIdIdentifiesSighting(sha: string -> string, u: Update, v: Update)
    requires sha(HashInput(u)) == sha(HashInput(v)) ==> HashInput(u) == HashInput(v)
    ensures DedupId(sha, u) == DedupId(sha, v) <==>
            && u.tenantId == v.tenantId && u.senderHash == v.senderHash
            && u.recipientHash == v.recipientHash && u.messageId == v.messageId
  {
    HashInputIsExact(u, v);
    assert DedupId(sha, u)[3..] == sha(HashInput(u)) && DedupId(sha, v)[3..] == sha(HashInput(v));
  }
}
