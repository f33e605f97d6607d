/**
 * Tag maps and the two helpers of the scope that build fresh tag maps:
 * `mergeRightTags` and `copyAndSanitizeMap`.
 */
module Tags {

  /**
   * A Go `map[string]string`. A nil map has no entries but is told apart
   * from an allocated empty one, which `mergeRightTags` does.
   */
  datatype TagMap = NilMap | TagMap(entries: map<string, string>) {

    /** The entries; a nil map reads as empty. */
    function Entries(): map<string, string> {
      if NilMap? then map[] else entries
    }

    /** Go's `len`, which is zero for a nil map. */
    function Len(): nat {
      |Entries()|
    }
  }

  /**
   * The sanitizer: three string rewrites for metric names (and prefixes and
   * separators), tag keys and tag values. Its rules are not part of this model.
   */
  datatype Sanitizer = Sanitizer(name: string -> string, key: string -> string, value: string -> string)

  /** The sanitizer a root scope uses when no sanitize options are given. */
  function NoOpSanitizer(): (s: Sanitizer)
    ensures IsNoOp(s)
  {
    Sanitizer(x => x, x => x, x => x)
  }

  ghost predicate IsNoOp(s: Sanitizer) {
    forall x :: s.name(x) == x && s.key(x) == x && s.value(x) == x
  }

  /**
   * What `mergeRightTags` returns: nil when both sides are nil, the left map
   * itself when the right one has no entries, the right map itself when the
   * left one has none, and otherwise a fresh union in which the right side wins.
   */
  function MergedTags(left: TagMap, right: TagMap): TagMap {
    if left.NilMap? && right.NilMap? then NilMap
    else if right.Len() == 0 then left
    else if left.Len() == 0 then right
    else TagMap(left.entries + right.entries)
  }

  /** Every branch of the merge agrees with the right-biased union of the entries. */
  lemma MergedEntries(left: TagMap, right: TagMap)
    ensures MergedTags(left, right).Entries().Keys == left.Entries().Keys + right.Entries().Keys
    ensures forall k :: k in right.Entries() ==> MergedTags(left, right).Entries()[k] == right.Entries()[k]
    ensures forall k :: k in left.Entries() && k !in right.Entries() ==>
                        MergedTags(left, right).Entries()[k] == left.Entries()[k]
  {
  }

  /** The merge is nil exactly when the left map is nil and the right one has no entries. */
  lemma MergedIsNil(left: TagMap, right: TagMap)
    ensures MergedTags(left, right).NilMap? <==> left.NilMap? && right.Len() == 0
  {
  }

  /**
   * Overlaying the same tags twice gives the same tag set as overlaying them
   * once: `Tagged(t).Tagged(t)` carries the tags of `Tagged(t)`.
   */
  lemma MergedOverlayIdempotent(left: TagMap, overlay: TagMap)
    ensures MergedTags(MergedTags(left, overlay), overlay).Entries() == MergedTags(left, overlay).Entries()
  {
  }

  /**
   * `mergeRightTags`: the shortcut branches return one of the inputs; the last
   * branch copies the left entries and then the right ones into a fresh map.
   */
  method MergeRightTags(left: TagMap, right: TagMap) returns (result: TagMap)
    ensures result == MergedTags(left, right)
    ensures result.Entries() == left.Entries() + right.Entries()
  {
    if left.NilMap? && right.NilMap? {
      return NilMap;
    }
    if right.Len() == 0 {
      assert right.Entries() == map[];
      assert left.Entries() + right.Entries() == left.Entries();
      return left;
    }
    if left.Len() == 0 {
      assert left.Entries() == map[];
      assert left.Entries() + right.Entries() == right.Entries();
      return right;
    }
    var merged := PutAll(map[], left.entries);
    assert merged == left.entries;
    merged := PutAll(merged, right.entries);
    result := TagMap(merged);
  }

  /** The loop `for k, v := range from { into[k] = v }`, in whatever order Go visits the keys. */
  method PutAll(into: map<string, string>, from: map<string, string>) returns (result: map<string, string>)
    ensures result == into + from
  {
    result := into;
    var pending := from.Keys;
    while pending != {}
      invariant pending <= from.Keys
      invariant result.Keys == into.Keys + (from.Keys - pending)
      invariant forall k :: k in result && k in from && k !in pending ==> result[k] == from[k]
      invariant forall k :: k in result && (k !in from || k in pending) ==> result[k] == into[k]
      decreases pending
    {
      var k :| k in pending;
      result := result[k := from[k]];
      pending := pending - {k};
    }
  }

  /** No other key of `tags` sanitizes to the same key as `k`. */
  ghost predicate KeyUnique(s: Sanitizer, tags: map<string, string>, k: string) {
    forall other :: other in tags && s.key(other) == s.key(k) ==> other == k
  }

  /**
   * `result` is a sanitized copy of `src`: its keys are exactly the sanitized
   * source keys, a key no other key sanitizes to carries its sanitized value,
   * and every entry is the sanitized value of some source key that sanitizes
   * to it. When two keys sanitize alike, which value survives depends on Go's
   * map iteration order, so only some value of one of them is promised.
   */
  ghost predicate SanitizedCopy(s: Sanitizer, src: map<string, string>, result: map<string, string>) {
    && result.Keys == (set k | k in src :: s.key(k))
    && (forall k :: k in src && KeyUnique(s, src, k) ==> result[s.key(k)] == s.value(src[k]))
    && (forall sk :: sk in result ==> exists k :: k in src && s.key(k) == sk && result[sk] == s.value(src[k]))
  }

  /** `copyAndSanitizeMap`: a fresh map holding every tag with its key and value sanitized. */
  method CopyAndSanitizeMap(s: Sanitizer, tags: TagMap) returns (result: map<string, string>)
    ensures SanitizedCopy(s, tags.Entries(), result)
    ensures IsNoOp(s) ==> result == tags.Entries()
  {
    var source := tags.Entries();
    result := map[];
    var pending := source.Keys;
    while pending != {}
      invariant pending <= source.Keys
      invariant result.Keys == set k | k in source.Keys - pending :: s.key(k)
      invariant forall k :: k in source.Keys - pending && KeyUnique(s, source, k) ==>
                            result[s.key(k)] == s.value(source[k])
      invariant forall sk :: sk in result ==>
                             exists k :: k in source.Keys - pending && s.key(k) == sk && result[sk] == s.value(source[k])
      decreases pending
    {
      var k :| k in pending;
      result := result[s.key(k) := s.value(source[k])];
      pending := pending - {k};
    }
    if IsNoOp(s) {
      forall k | k in source ensures KeyUnique(s, source, k) {
      }
      assert result.Keys == source.Keys;
    }
  }
}
