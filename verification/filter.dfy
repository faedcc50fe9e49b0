/** The filter engine: an instance survives when some filter term is a
    substring of the text of some of its tags. The text of a tag comes from
    the cloud SDK's debug rendering, which is not part of this model; it is
    the parameter `render`, about which nothing is assumed. */
module Filter {
  import opened Ec2
  import opened Text
  import opened Seqs

  /** The reference meaning of a match. */
  ghost predicate Matches(i: Instance, filters: seq<string>, render: Tag -> string)
  {
    exists f, t :: f in filters && t in i.tags && IsSubstring(f, render(t))
  }

  /** `tagsHasFilter`: scans the tags, stopping at the first whose text contains the filter. */
  function TagsHasFilter(tags: seq<Tag>, filter: string, render: Tag -> string): bool
  {
    if |tags| == 0 then false
    else if Contains(render(tags[0]), filter) then true
    else TagsHasFilter(tags[1..], filter, render)
  }

  /** `instanceHasFilter`: scans the filters, stopping at the first the tags contain. */
  function InstanceHasFilter(i: Instance, filters: seq<string>, render: Tag -> string): bool
  {
    if |filters| == 0 then false
    else if TagsHasFilter(i.tags, filters[0], render) then true
    else InstanceHasFilter(i, filters[1..], render)
  }

  /** `filterInstances`: keeps, in order, the instances that have a filter. */
  function FilterInstances(filters: seq<string>, instances: seq<Instance>, render: Tag -> string): (r: seq<Instance>)
    ensures |r| <= |instances|
    ensures forall x :: x in r ==> x in instances && InstanceHasFilter(x, filters, render)
  {
    if |instances| == 0 then []
    else
      var rest := FilterInstances(filters, instances[1..], render);
      if InstanceHasFilter(instances[0], filters, render) then [instances[0]] + rest else rest
  }

  lemma {:induction false} TagsHasFilterIff(tags: seq<Tag>, filter: string, render: Tag -> string)
    ensures TagsHasFilter(tags, filter, render) <==> exists t :: t in tags && IsSubstring(filter, render(t))
    decreases |tags|
  {
    if |tags| > 0 {
      ContainsIsSubstring(render(tags[0]), filter);
      TagsHasFilterIff(tags[1..], filter, render);
      assert forall t :: t in tags <==> t == tags[0] || t in tags[1..];
    }
  }

  /** The scanning loops decide exactly the reference match: some filter is a
      substring of the text of some tag. */
  lemma {:induction false} InstanceHasFilterIff(i: Instance, filters: seq<string>, render: Tag -> string)
    ensures InstanceHasFilter(i, filters, render) <==> Matches(i, filters, render)
    decreases |filters|
  {
    if |filters| > 0 {
      TagsHasFilterIff(i.tags, filters[0], render);
      InstanceHasFilterIff(i, filters[1..], render);
      if Matches(i, filters, render) {
        var f, t :| f in filters && t in i.tags && IsSubstring(f, render(t));
        if f != filters[0] {
          assert f in filters[1..];
        }
      }
      if TagsHasFilter(i.tags, filters[0], render) {
        var t :| t in i.tags && IsSubstring(filters[0], render(t));
        assert filters[0] in filters;
      }
      if Matches(i, filters[1..], render) {
        var f, t :| f in filters[1..] && t in i.tags && IsSubstring(f, render(t));
        assert f in filters;
      }
    }
  }

  /** Without filter terms nothing matches, and an instance without tags
      matches no filter. */
  lemma NothingToMatch(i: Instance, filters: seq<string>, render: Tag -> string)
    ensures |filters| == 0 ==> !InstanceHasFilter(i, filters, render)
    ensures |i.tags| == 0 ==> !InstanceHasFilter(i, filters, render)
  {
    InstanceHasFilterIff(i, filters, render);
  }

  /** The empty filter term matches every instance that has at least one tag,
      whatever its tags render to. */
  lemma EmptyFilterMatchesTagged(i: Instance, filters: seq<string>, render: Tag -> string)
    requires "" in filters && |i.tags| > 0
    ensures InstanceHasFilter(i, filters, render)
  {
    InstanceHasFilterIff(i, filters, render);
    EmptyIsContained(render(i.tags[0]));
    ContainsIsSubstring(render(i.tags[0]), "");
    assert "" in filters && i.tags[0] in i.tags && IsSubstring("", render(i.tags[0]));
  }

  /** The surviving instances keep their input order. */
  lemma {:induction false} FilterIsSubsequence(filters: seq<string>, instances: seq<Instance>, render: Tag -> string)
    ensures IsSubsequence(FilterInstances(filters, instances, render), instances)
    decreases |instances|
  {
    if |instances| > 0 {
      FilterIsSubsequence(filters, instances[1..], render);
      var rest := FilterInstances(filters, instances[1..], render);
      if InstanceHasFilter(instances[0], filters, render) {
        assert ([instances[0]] + rest)[1..] == rest;
      }
    }
  }

  /** Exactly the matching instances survive, each as often as it occurs in the input. */
  lemma {:induction false} FilterKeepsExactlyMatches(filters: seq<string>, instances: seq<Instance>, render: Tag -> string)
    ensures forall x :: multiset(FilterInstances(filters, instances, render))[x] ==
                        if Matches(x, filters, render) then multiset(instances)[x] else 0
    decreases |instances|
  {
    if |instances| > 0 {
      FilterKeepsExactlyMatches(filters, instances[1..], render);
      InstanceHasFilterIff(instances[0], filters, render);
      assert instances == [instances[0]] + instances[1..];
      assert multiset(instances) == multiset([instances[0]]) + multiset(instances[1..]);
    }
  }

  /** Filtering a second time with the same terms changes nothing. */
  lemma {:induction false} FilterIdempotent(filters: seq<string>, instances: seq<Instance>, render: Tag -> string)
    ensures FilterInstances(filters, FilterInstances(filters, instances, render), render)
         == FilterInstances(filters, instances, render)
    decreases |instances|
  {
    if |instances| > 0 {
      FilterIdempotent(filters, instances[1..], render);
      var rest := FilterInstances(filters, instances[1..], render);
      if InstanceHasFilter(instances[0], filters, render) {
        assert ([instances[0]] + rest)[1..] == rest;
      }
    }
  }

  // ------------------------------------------------------------- instanceTag

  /** `instanceTag`: the value of the first tag with the given key, or the
      empty string when there is none. */
  function InstanceTag(i: Instance, key: string): string
  {
    TagValue(i.tags, key)
  }

  function TagValue(tags: seq<Tag>, key: string): string
  {
    if |tags| == 0 then ""
    else if tags[0].key == key then tags[0].value
    else TagValue(tags[1..], key)
  }

  /** Position `k` holds the first tag whose key is `key`. */
  predicate FirstWithKey(tags: seq<Tag>, key: string, k: int)
  {
    0 <= k < |tags| && tags[k].key == key && forall j :: 0 <= j < k ==> tags[j].key != key
  }

  /** The lookup returns the value of the FIRST tag carrying the key, and the
      empty string (never an error) when no tag does. */
  lemma {:induction false} TagValueFirst(tags: seq<Tag>, key: string)
    ensures (forall k :: 0 <= k < |tags| ==> tags[k].key != key) ==> TagValue(tags, key) == ""
    ensures forall k :: FirstWithKey(tags, key, k) ==> TagValue(tags, key) == tags[k].value
    decreases |tags|
  {
    if |tags| > 0 {
      TagValueFirst(tags[1..], key);
      forall k | FirstWithKey(tags, key, k)
        ensures TagValue(tags, key) == tags[k].value
      {
        if k > 0 {
          assert tags[0].key != key;
          assert tags[1..][k - 1] == tags[k];
          assert FirstWithKey(tags[1..], key, k - 1) by {
            forall j | 0 <= j < k - 1 ensures tags[1..][j].key != key {
              assert tags[1..][j] == tags[j + 1];
            }
          }
        }
      }
    }
  }
}
