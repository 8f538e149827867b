/**
  The preimage of an intake identity, src/app/idea_evidence_intake/service.py. The digest
  itself is left abstract; that distinct triples have distinct preimages is proved here.
*/
module IntakeIdentity {
  import opened Text

  /** One component, prefixed with its length. */
  function Framed(part: string): string { Decimal(|part|) + ":" + part }

  /** `"".join(f"{len(part)}:{part}" for part in parts)`. */
  function Preimage(parts: seq<string>): string {
    if parts == [] then "" else Framed(parts[0]) + Preimage(parts[1..])
  }

  /** A frame can be read off the front of any string that starts with it: two strings that
      start with a frame and are equal start with the same frame, whatever follows. */
  lemma FrameReadable(p: string, q: string, after: string, after': string)
    requires Framed(p) + after == Framed(q) + after'
    ensures p == q && after == after'
  {
    hide Decimal;
    assert Framed(p) + after == Decimal(|p|) + (":" + (p + after));
    assert Framed(q) + after' == Decimal(|q|) + (":" + (q + after'));
    UpToColon(Decimal(|p|), Decimal(|q|), p + after, q + after');
    DecimalInjective(|p|, |q|);
    SameParts(p, q, after, after');
  }

  /** What comes before the first colon. */
  function Prefix(s: string): string {
    if s == "" || s[0] == ':' then "" else [s[0]] + Prefix(s[1..])
  }

  lemma {:induction false} PrefixIs(a: string, x: string)
    requires ':' !in a
    ensures Prefix(a + (":" + x)) == a
    decreases |a|
  {
    if a == "" {
      assert a + (":" + x) == ":" + x;
    } else {
      assert (a + (":" + x))[1..] == a[1..] + (":" + x);
      PrefixIs(a[1..], x);
    }
  }

  lemma UpToColon(a: string, b: string, x: string, y: string)
    requires ':' !in a && ':' !in b && a + (":" + x) == b + (":" + y)
    ensures a == b && x == y
  {
    PrefixIs(a, x);
    PrefixIs(b, y);
    SameParts(a, b, ":" + x, ":" + y);
    assert (":" + x)[1..] == x && (":" + y)[1..] == y;
  }

  lemma SameParts(p: string, q: string, after: string, after': string)
    requires |p| == |q| && p + after == q + after'
    ensures p == q && after == after'
  {
    assert (p + after)[..|p|] == p && (q + after')[..|p|] == q;
    assert (p + after)[|p|..] == after && (q + after')[|p|..] == after';
  }

  /** Equal preimages come from equal lists of parts, of any number and whatever the parts hold. */
  lemma {:induction false} PreimageInjective(a: seq<string>, b: seq<string>)
    requires Preimage(a) == Preimage(b)
    ensures a == b
    decreases |a|
  {
    if a == [] || b == [] {
    } else {
      FrameReadable(a[0], b[0], Preimage(a[1..]), Preimage(b[1..]));
      PreimageInjective(a[1..], b[1..]);
      assert a == [a[0]] + a[1..] && b == [b[0]] + b[1..];
    }
  }

  /** Distinct (tenant, key, fingerprint) triples have distinct preimages. */
  lemma TripleInjective(tenant: string, key: string, fingerprint: string, tenant': string, key': string,
      fingerprint': string)
    ensures Preimage([tenant, key, fingerprint]) == Preimage([tenant', key', fingerprint'])
            <==> tenant == tenant' && key == key' && fingerprint == fingerprint'
  {
    if Preimage([tenant, key, fingerprint]) == Preimage([tenant', key', fingerprint']) {
      PreimageInjective([tenant, key, fingerprint], [tenant', key', fingerprint']);
      assert [tenant, key, fingerprint][0] == tenant && [tenant, key, fingerprint][1] == key
             && [tenant, key, fingerprint][2] == fingerprint;
    }
  }

  function Joined(parts: seq<string>): string {
    if parts == [] then "" else if |parts| == 1 then parts[0] else parts[0] + ":" + Joined(parts[1..])
  }

  /** The plain separator that the lengths replace is ambiguous. */
  lemma JoinAmbiguous()
    ensures Joined(["a:b", "c", "f"]) == Joined(["a", "b:c", "f"]) && ["a:b", "c", "f"] != ["a", "b:c", "f"]
  {
    assert ["a:b", "c", "f"][1..] == ["c", "f"] && ["a", "b:c", "f"][1..] == ["b:c", "f"];
    assert ["c", "f"][1..] == ["f"] && ["b:c", "f"][1..] == ["f"];
    assert ["a:b", "c", "f"][0] == "a:b" && ["a", "b:c", "f"][0] == "a";
  }
}
