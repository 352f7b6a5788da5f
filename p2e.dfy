/** `AIKernal._p2e_mapper` (ai_kernal.py:301-306): the mapping from a
    Wikidata property URI to the entity URI of the same property, used when
    importing the knowledge base. */
module P2E {
  import opened Wrappers
  import opened Text

  const PropPrefix: string := "http://www.wikidata.org/prop/"
  const DirectPrefix: string := "http://www.wikidata.org/prop/direct/"
  const EntityPrefix: string := "http://www.wikidata.org/entity/"

  /** The source cuts the prefixes off with the literal slices `p[36:]` and
      `p[29:]`. */
  function P2EMap(p: string): Option<string>
  {
    if StartsWith(p, DirectPrefix) then Some(EntityPrefix + p[36..])
    else if StartsWith(p, PropPrefix) then Some(EntityPrefix + p[29..])
    else None
  }

  /** The literal slice bounds are the lengths of the two prefixes. */
  lemma PrefixLengths()
    ensures |PropPrefix| == 29 && |DirectPrefix| == 36
    ensures DirectPrefix == PropPrefix + "direct/"
  {
  }

  /** A direct-property URI maps to the entity with the same local name. */
  lemma P2EDirect(x: string)
    ensures P2EMap(DirectPrefix + x) == Some(EntityPrefix + x)
  {
    var p := DirectPrefix + x;
    assert p[..|DirectPrefix|] == DirectPrefix;
    assert p[36..] == x;
  }

  /** Any other property URI maps to the entity with the same local name. */
  lemma P2EProp(x: string)
    requires !StartsWith(x, "direct/")
    ensures P2EMap(PropPrefix + x) == Some(EntityPrefix + x)
  {
    var p := PropPrefix + x;
    assert p[..|PropPrefix|] == PropPrefix;
    assert p[29..] == x;
  }

  /** The `direct/` test comes first: `…/prop/direct/X` becomes the entity
      `X`, not the entity `direct/X`. */
  lemma P2EDirectFirst(x: string)
    ensures P2EMap(PropPrefix + "direct/" + x) == Some(EntityPrefix + x)
  {
    assert PropPrefix + "direct/" + x == DirectPrefix + x;
    P2EDirect(x);
  }

  /** Exactly the URIs under the property prefix are mapped; every result is
      an entity URI. */
  lemma P2EDefined(p: string)
    ensures P2EMap(p).Some? <==> StartsWith(p, PropPrefix)
    ensures P2EMap(p).Some? ==> StartsWith(P2EMap(p).value, EntityPrefix)
  {
    if StartsWith(p, DirectPrefix) {
      assert p[..29] == p[..36][..29];
    }
    if P2EMap(p).Some? {
      assert P2EMap(p).value[..|EntityPrefix|] == EntityPrefix;
    }
  }

  /** Mapping loses nothing: two URIs under the same prefix map to the same
      entity only when they are the same URI. */
  lemma P2EInjective(p: string, q: string)
    requires StartsWith(p, DirectPrefix) == StartsWith(q, DirectPrefix)
    requires P2EMap(p).Some? && P2EMap(p) == P2EMap(q)
    ensures p == q
  {
    P2EDefined(p);
    P2EDefined(q);
    var n := if StartsWith(p, DirectPrefix) then 36 else 29;
    assert p[n..] == P2EMap(p).value[|EntityPrefix|..];
    assert q[n..] == P2EMap(q).value[|EntityPrefix|..];
    if StartsWith(p, DirectPrefix) {
      assert p == p[..36] + p[36..] && q == q[..36] + q[36..];
    } else {
      assert p == p[..29] + p[29..] && q == q[..29] + q[29..];
    }
  }
}
