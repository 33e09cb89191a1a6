/** The strings under which derived keys are cached. */
module KeyCacheKeys {
  import opened Text
  import opened OptionText
  import B = Base64

  /** What a key is derived from. */
  datatype Input = Pbkdf2(material: string, salt: B.Bytes) | Hkdf(material: string)

  function CacheKey(x: Input): string {
    match x
    case Pbkdf2(material, salt) => "pbkdf2:" + Decimal(|material|) + ":" + material + ":" + B.Encode(salt)
    case Hkdf(material) => "hkdf-v3:" + Decimal(|material|) + ":" + material
  }

  lemma SplitsAtColon(a: string, x: string, b: string, y: string)
    requires ':' !in a && ':' !in b && a + ":" + x == b + ":" + y
    ensures a == b && x == y
  {
    IndexAfter(a, x, ':');
    IndexAfter(b, y, ':');
    var s := a + [':'] + x;
    assert s == a + ":" + x == b + [':'] + y;
    assert s[..|a|] == a && s[|a| + 1..] == x;
    assert s[..|b|] == b && s[|b| + 1..] == y;
  }

  /** A length in front of a text fixes where the text ends. */
  lemma LengthPrefixed(a: string, x: string, b: string, y: string)
    requires Decimal(|a|) + ":" + (a + x) == Decimal(|b|) + ":" + (b + y)
    ensures a == b && x == y
  {
    DecimalDenotes(|a|);
    DecimalDenotes(|b|);
    assert forall c :: c in Decimal(|a|) || c in Decimal(|b|) ==> c != ':';
    SplitsAtColon(Decimal(|a|), a + x, Decimal(|b|), b + y);
    assert (a + x)[..|a|] == a && (a + x)[|a|..] == x;
    assert (b + y)[..|b|] == b && (b + y)[|b|..] == y;
  }

  lemma Tail(prefix: string, s: string, t: string)
    requires prefix + s == prefix + t
    ensures s == t
  {
    assert (prefix + s)[|prefix|..] == s && (prefix + t)[|prefix|..] == t;
  }

  /** The part of a cache key behind its first colon. */
  function Rest(x: Input): string {
    Decimal(|x.material|) + ":" + (x.material + (if x.Hkdf? then "" else ":" + B.Encode(x.salt)))
  }

  function Label(x: Input): string {
    if x.Hkdf? then "hkdf-v3:" else "pbkdf2:"
  }

  lemma LabelAndRest(x: Input)
    ensures CacheKey(x) == Label(x) + Rest(x)
  {
    if x.Hkdf? {
      assert x.material + "" == x.material;
    } else {
      Regroup(Decimal(|x.material|), x.material, B.Encode(x.salt));
    }
  }

  lemma Regroup(a: string, b: string, c: string)
    ensures "pbkdf2:" + a + ":" + b + ":" + c == "pbkdf2:" + (a + ":" + (b + (":" + c)))
  {
    assert b + ":" + c == b + (":" + c);
    assert a + ":" + b + ":" + c == a + ":" + (b + ":" + c);
  }

  /** Different inputs never share a cache key, whatever characters the key material holds. */
  lemma CacheKeyInjective(x: Input, y: Input)
    requires CacheKey(x) == CacheKey(y)
    ensures x == y
  {
    LabelAndRest(x);
    LabelAndRest(y);
    assert (Label(x) + Rest(x))[0] == Label(x)[0] && (Label(y) + Rest(y))[0] == Label(y)[0];
    assert x.Hkdf? == y.Hkdf?;
    Tail(Label(x), Rest(x), Rest(y));
    if x.Hkdf? {
      LengthPrefixed(x.material, "", y.material, "");
    } else {
      LengthPrefixed(x.material, ":" + B.Encode(x.salt), y.material, ":" + B.Encode(y.salt));
      Tail(":", B.Encode(x.salt), B.Encode(y.salt));
      B.EncodeInjective(x.salt, y.salt);
    }
  }
}
