/**
 * Element ids. Each field factory keeps a module-level table from slug to the number of ids
 * already handed out for it: the first request for a slug gets the bare slug, the k-th later
 * one gets "slug-k". The form factory and the checklist factory each own a table; they are two
 * instances of the class below, with prefixes "form-" and "checklist-".
 */
module FieldIds {
  import opened JsText

  /** The id handed out for `slug` when `k` ids were handed out for it before. */
  function IdFor(slug: string, k: nat): string {
    if k == 0 then slug else slug + "-" + NatToString(k)
  }

  /** How many ids the table has handed out for `slug` (`ids[slug] || 0`). */
  function CountIn(ids: map<string, nat>, slug: string): nat {
    if slug in ids then ids[slug] else 0
  }

  /** The table after one more id for `slug`. */
  function Bump(ids: map<string, nat>, slug: string): (r: map<string, nat>)
    ensures CountIn(r, slug) == CountIn(ids, slug) + 1
    ensures forall other :: other != slug ==> CountIn(r, other) == CountIn(ids, other)
  {
    ids[slug := CountIn(ids, slug) + 1]
  }

  /** The ids one slug receives are pairwise distinct. */
  lemma IdsForOneSlugDistinct(slug: string, j: nat, k: nat)
    requires j != k
    ensures IdFor(slug, j) != IdFor(slug, k)
  {
    if j != 0 && k != 0 {
      NatToStringInjective(j, k);
      var a, b := IdFor(slug, j), IdFor(slug, k);
      assert a[|slug| + 1..] == NatToString(j);
      assert b[|slug| + 1..] == NatToString(k);
    }
  }

  class FieldIdGenerator {
    /** "form-" or "checklist-". */
    const prefix: string
    /** The content framework's `toClassName`, which is not part of this model: left uninterpreted. */
    const toClassName: string -> string
    var ids: map<string, nat>

    constructor (prefix: string, toClassName: string -> string)
      ensures this.prefix == prefix && this.toClassName == toClassName
      ensures ids == map[]
    {
      this.prefix := prefix;
      this.toClassName := toClassName;
      ids := map[];
    }

    /** The slug an id is made from: `toClassName(prefix + name + suffix)`. */
    function Slug(name: string, suffix: string): string {
      toClassName(prefix + name + suffix)
    }

    /**
     * `generateFieldId(fd, suffix)`: the id is the slug itself the first time and "slug-k" on
     * the k-th later call; that slug's counter rises by one and every other counter stays.
     */
    method Generate(name: string, suffix: string) returns (id: string)
      modifies this
      ensures id == IdFor(Slug(name, suffix), CountIn(old(ids), Slug(name, suffix)))
      ensures ids == Bump(old(ids), Slug(name, suffix))
    {
      var slug := toClassName(prefix + name + suffix);
      var count := if slug in ids then ids[slug] else 0;
      ids := ids[slug := count];
      var idSuffix := if ids[slug] != 0 then "-" + NatToString(ids[slug]) else "";
      ids := ids[slug := ids[slug] + 1];
      id := slug + idSuffix;
    }
  }
}
