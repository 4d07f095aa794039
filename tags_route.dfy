/**
 * `GET /api/tags`: the user's tags (already ordered by name) grouped into
 * top-level tags, each with its direct children, plus the flat list.
 */
module TagsRoute {
  import opened Wrappers
  import opened Seqs
  import L = Library

  /** `tag.parent_id` read as a condition: null and "" are falsy. */
  predicate HasParent(t: L.Tag) {
    t.parentId.Some? && t.parentId.value != ""
  }

  /** A top-level tag with its `children`. */
  datatype Group = Group(parent: L.Tag, children: seq<L.Tag>)

  datatype TagListing = TagListing(groups: seq<Group>, allTags: seq<L.Tag>)

  function ChildrenOf(childTags: seq<L.Tag>, parent: L.Tag): seq<L.Tag> {
    Filter(childTags, (c: L.Tag) => c.parentId == Some(parent.id))
  }

  function GroupAll(parents: seq<L.Tag>, childTags: seq<L.Tag>): (gs: seq<Group>)
    ensures |gs| == |parents|
    ensures forall i :: 0 <= i < |gs| ==> gs[i] == Group(parents[i], ChildrenOf(childTags, parents[i]))
  {
    if parents == [] then []
    else [Group(parents[0], ChildrenOf(childTags, parents[0]))] + GroupAll(parents[1..], childTags)
  }

  /** The route's answer for the rows `tags`. */
  function ListTags(tags: seq<L.Tag>): TagListing {
    var parents := Filter(tags, (t: L.Tag) => !HasParent(t));
    var childTags := Filter(tags, (t: L.Tag) => HasParent(t));
    TagListing(GroupAll(parents, childTags), tags)
  }

  /** The groups' parents are exactly the tags without a parent, in input
      order; `allTags` is the input unchanged. */
  lemma ParentsSpec(tags: seq<L.Tag>)
    ensures var out := ListTags(tags);
            out.allTags == tags
            && |out.groups| <= |tags|
            && (forall t :: (exists i :: 0 <= i < |out.groups| && out.groups[i].parent == t) <==> t in tags && !HasParent(t))
            && (forall i :: 0 <= i < |out.groups| ==> out.groups[i].parent == Filter(tags, (t: L.Tag) => !HasParent(t))[i])
  {
    ParentsInOrder(tags);
    ParentsAreTopLevel(tags);
    TopLevelAreParents(tags);
  }

  /** One group per tag without a parent, in input order. */
  lemma ParentsInOrder(tags: seq<L.Tag>)
    ensures var out := ListTags(tags);
            var parents := Filter(tags, (t: L.Tag) => !HasParent(t));
            |out.groups| == |parents| <= |tags|
            && forall i :: 0 <= i < |out.groups| ==> out.groups[i].parent == parents[i]
  {
  }

  /** Every group's parent is an input tag without a parent. */
  lemma ParentsAreTopLevel(tags: seq<L.Tag>)
    ensures var out := ListTags(tags);
            forall i :: 0 <= i < |out.groups| ==> out.groups[i].parent in tags && !HasParent(out.groups[i].parent)
  {
    var isParent := (t: L.Tag) => !HasParent(t);
    var parents := Filter(tags, isParent);
    var out := ListTags(tags);
    ParentsInOrder(tags);
    forall i | 0 <= i < |out.groups|
      ensures out.groups[i].parent in tags && !HasParent(out.groups[i].parent)
    {
      assert out.groups[i].parent == parents[i] && isParent(parents[i]);
    }
  }

  /** Every input tag without a parent heads a group. */
  lemma TopLevelAreParents(tags: seq<L.Tag>)
    ensures var out := ListTags(tags);
            forall t :: t in tags && !HasParent(t) ==> exists i :: 0 <= i < |out.groups| && out.groups[i].parent == t
  {
    var isParent := (t: L.Tag) => !HasParent(t);
    var parents := Filter(tags, isParent);
    var out := ListTags(tags);
    ParentsInOrder(tags);
    forall t | t in tags && !HasParent(t)
      ensures exists i :: 0 <= i < |out.groups| && out.groups[i].parent == t
    {
      assert isParent(t);
      var i :| 0 <= i < |parents| && parents[i] == t;
      assert out.groups[i].parent == t;
    }
  }

  /** Each group's children are exactly the tags whose `parent_id` is the
      group's id, in input order. */
  lemma ChildrenSpec(tags: seq<L.Tag>, i: nat)
    requires i < |ListTags(tags).groups|
    ensures var g := ListTags(tags).groups[i];
            g.children == Filter(tags, (c: L.Tag) => c.parentId == Some(g.parent.id) && g.parent.id != "")
            && forall c :: c in g.children <==> c in tags && c.parentId == Some(g.parent.id) && g.parent.id != ""
  {
    var g := ListTags(tags).groups[i];
    FilterOfFilter(tags, (t: L.Tag) => HasParent(t), (c: L.Tag) => c.parentId == Some(g.parent.id),
                   (c: L.Tag) => c.parentId == Some(g.parent.id) && g.parent.id != "");
  }

  /** Filtering twice is filtering once by the conjunction. */
  lemma {:induction false} FilterOfFilter<T>(s: seq<T>, p: T -> bool, q: T -> bool, pq: T -> bool)
    requires forall x :: pq(x) == (p(x) && q(x))
    ensures Filter(Filter(s, p), q) == Filter(s, pq)
  {
    if s != [] {
      FilterOfFilter(s[1..], p, q, pq);
      if p(s[0]) {
        assert Filter(s, p) == [s[0]] + Filter(s[1..], p);
        assert Filter(s, p)[1..] == Filter(s[1..], p);
      } else {
        assert Filter(s, p) == Filter(s[1..], p);
      }
    }
  }

  /** A tag whose parent is not a top-level tag of the list (absent, or itself
      a child) is in `allTags` but in no group. */
  lemma OrphanInNoGroup(tags: seq<L.Tag>, t: L.Tag)
    requires t in tags && HasParent(t)
    requires forall p :: p in tags && p.id == t.parentId.value ==> HasParent(p)
    ensures t in ListTags(tags).allTags
    ensures forall i :: 0 <= i < |ListTags(tags).groups| ==>
              ListTags(tags).groups[i].parent != t && t !in ListTags(tags).groups[i].children
  {
    var out := ListTags(tags);
    ParentsSpec(tags);
    forall i | 0 <= i < |out.groups|
      ensures out.groups[i].parent != t && t !in out.groups[i].children
    {
      ChildrenSpec(tags, i);
      var p := out.groups[i].parent;
      assert p in tags && !HasParent(p);
    }
  }
}
