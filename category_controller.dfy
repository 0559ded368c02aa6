/**
 * The category controller: the recursive `getChildren` tree builder, the
 * de-duplication loop of `getByBrand`, and the decisions of the
 * `getChildren` and `update` handlers.
 */
module CategoryController {
  import opened Js

  /** A category document as the store returns it; `parents` may be absent. */
  datatype Category = Category(id: Id, name: string, slug: string, parents: Option<seq<Id>>)

  /** A node of the tree `getChildren` builds: the entry without its `parents`. */
  datatype Node = Node(name: string, slug: string, id: Id, children: seq<Node>)

  /** A reply of a category handler: the data, or an error status code. */
  datatype Reply<T> = Ok(data: T) | Error(status: nat)

  /** `c` sits directly under `rootId` at depth `depth`: it has exactly
      `depth` parents and `rootId` is one of them. */
  predicate IsChildAt(c: Category, rootId: Id, depth: int) {
    c.parents.Some? && |c.parents.value| == depth && rootId in c.parents.value
  }

  /** The length of the longest `parents` list in `source`. */
  function MaxParents(source: seq<Category>): (m: nat)
    ensures forall c :: c in source && c.parents.Some? ==> |c.parents.value| <= m
  {
    if source == [] then 0
    else
      var rest := MaxParents(source[1..]);
      var here := if source[0].parents.Some? then |source[0].parents.value| else 0;
      assert forall c :: c in source ==> c == source[0] || c in source[1..];
      if here < rest then rest else here
  }

  /**
   * `getChildren`'s loop from position `i` on: each entry that is a child
   * of `rootId` at `depth` becomes a node whose children are the entries
   * one level deeper under it. The depth grows on every descent and no
   * entry matches beyond the longest `parents` list, which bounds the
   * recursion.
   */
  function Scan(source: seq<Category>, rootId: Id, depth: nat, i: nat): seq<Node>
    requires i <= |source|
    decreases if depth <= MaxParents(source) then MaxParents(source) + 1 - depth else 0, |source| - i
  {
    if i == |source| then []
    else if IsChildAt(source[i], rootId, depth) then
      assert source[i] in source;
      [Node(source[i].name, source[i].slug, source[i].id, Scan(source, source[i].id, depth + 1, 0))]
        + Scan(source, rootId, depth, i + 1)
    else
      Scan(source, rootId, depth, i + 1)
  }

  /** `getChildren(source, rootId, dept)`. */
  function GetChildren(source: seq<Category>, rootId: Id, depth: nat): seq<Node> {
    Scan(source, rootId, depth, 0)
  }

  /** The entries of `s` that are children of `rootId` at `depth`, in order. */
  function Matches(s: seq<Category>, rootId: Id, depth: nat): (r: seq<Category>)
    ensures forall c :: c in r <==> c in s && IsChildAt(c, rootId, depth)
  {
    if s == [] then []
    else
      assert forall c :: c in s ==> c == s[0] || c in s[1..];
      (if IsChildAt(s[0], rootId, depth) then [s[0]] else []) + Matches(s[1..], rootId, depth)
  }

  /** The node `getChildren` makes of a matching entry `c` of `source`. */
  function NodeOf(source: seq<Category>, c: Category, depth: nat): Node {
    Node(c.name, c.slug, c.id, GetChildren(source, c.id, depth + 1))
  }

  /** `NodeOf` applied along a list of entries. */
  function NodesOf(source: seq<Category>, cs: seq<Category>, depth: nat): (r: seq<Node>)
    ensures |r| == |cs|
    ensures forall j :: 0 <= j < |cs| ==> r[j] == NodeOf(source, cs[j], depth)
  {
    if cs == [] then [] else [NodeOf(source, cs[0], depth)] + NodesOf(source, cs[1..], depth)
  }

  /** Taking matches commutes with concatenation, so matches keep their relative order. */
  lemma {:induction false} MatchesAppend(a: seq<Category>, b: seq<Category>, rootId: Id, depth: nat)
    ensures Matches(a + b, rootId, depth) == Matches(a, rootId, depth) + Matches(b, rootId, depth)
  {
    if a == [] {
      assert a + b == b;
    } else {
      var ab := a + b;
      assert ab[0] == a[0] && ab[1..] == a[1..] + b;
      MatchesAppend(a[1..], b, rootId, depth);
      var head := if IsChildAt(a[0], rootId, depth) then [a[0]] else [];
      var ma, mb := Matches(a[1..], rootId, depth), Matches(b, rootId, depth);
      calc {
        Matches(ab, rootId, depth);
        head + Matches(a[1..] + b, rootId, depth);
        head + (ma + mb);
        (head + ma) + mb;
        Matches(a, rootId, depth) + mb;
      }
    }
  }

  lemma {:induction false} ScanIsNodesOfMatches(source: seq<Category>, rootId: Id, depth: nat, i: nat)
    requires i <= |source|
    ensures Scan(source, rootId, depth, i) == NodesOf(source, Matches(source[i..], rootId, depth), depth)
    decreases |source| - i
  {
    if i < |source| {
      ScanIsNodesOfMatches(source, rootId, depth, i + 1);
      assert source[i..][0] == source[i];
      assert source[i..][1..] == source[i + 1..];
      if IsChildAt(source[i], rootId, depth) {
        var m := Matches(source[i + 1..], rootId, depth);
        assert Matches(source[i..], rootId, depth) == [source[i]] + m;
        assert ([source[i]] + m)[1..] == m;
      }
    }
  }

  /**
   * The nodes `getChildren(source, rootId, depth)` returns are exactly the
   * entries that are children of `rootId` at `depth`, in `source` order,
   * each carrying its name, slug and id (no parents) and, as children,
   * `getChildren(source, id, depth + 1)`.
   */
  lemma GetChildrenSpec(source: seq<Category>, rootId: Id, depth: nat)
    ensures GetChildren(source, rootId, depth) == NodesOf(source, Matches(source, rootId, depth), depth)
  {
    ScanIsNodesOfMatches(source, rootId, depth, 0);
    assert source[0..] == source;
  }

  /** Below the deepest `parents` list there is nothing: the result is empty. */
  lemma GetChildrenEmptyBeyondDepth(source: seq<Category>, rootId: Id, depth: nat)
    requires depth > MaxParents(source)
    ensures GetChildren(source, rootId, depth) == []
  {
    GetChildrenSpec(source, rootId, depth);
    MatchesNone(source, rootId, depth);
  }

  lemma {:induction false} MatchesNone(s: seq<Category>, rootId: Id, depth: nat)
    requires forall c :: c in s ==> !IsChildAt(c, rootId, depth)
    ensures Matches(s, rootId, depth) == []
  {
    if s != [] {
      assert s[0] in s;
      assert forall c :: c in s[1..] ==> c in s;
      MatchesNone(s[1..], rootId, depth);
    }
  }

  // ---------------------------------------------------------------------
  // getByBrand: the categories of a brand's products, each id once

  /** The products' category lists, one after the other. */
  function Flatten(groups: seq<seq<Category>>): seq<Category> {
    if groups == [] then [] else Flatten(groups[..|groups| - 1]) + groups[|groups| - 1]
  }

  /** Some entry of `s` has id `id`. */
  predicate HasId(s: seq<Category>, id: Id) {
    exists k :: 0 <= k < |s| && s[k].id == id
  }

  /** Keep the first category of each id, in the order they first appear. */
  function FirstById(s: seq<Category>): seq<Category> {
    if s == [] then []
    else
      var kept := FirstById(s[..|s| - 1]);
      var c := s[|s| - 1];
      if HasId(kept, c.id) then kept else kept + [c]
  }

  lemma FirstByIdSnoc(s: seq<Category>, c: Category)
    ensures FirstById(s + [c]) == if HasId(FirstById(s), c.id) then FirstById(s) else FirstById(s) + [c]
  {
    assert (s + [c])[..|s + [c]| - 1] == s;
  }

  lemma FlattenSnoc(groups: seq<seq<Category>>, i: nat)
    requires i < |groups|
    ensures Flatten(groups[..i + 1]) == Flatten(groups[..i]) + groups[i]
  {
    assert groups[..i + 1][..i] == groups[..i];
  }

  /**
   * `getByBrand`'s nested `forEach`: walks the categories of every product
   * and pushes a category unless one with the same id was kept already.
   */
  method DistinctCategories(products: seq<seq<Category>>) returns (categories: seq<Category>)
    ensures categories == FirstById(Flatten(products))
  {
    categories := [];
    var i := 0;
    while i < |products|
      invariant 0 <= i <= |products|
      invariant categories == FirstById(Flatten(products[..i]))
    {
      var cats := products[i];
      var j := 0;
      assert Flatten(products[..i]) + cats[..j] == Flatten(products[..i]);
      while j < |cats|
        invariant 0 <= j <= |cats|
        invariant categories == FirstById(Flatten(products[..i]) + cats[..j])
      {
        var cat := cats[j];
        FirstByIdSnoc(Flatten(products[..i]) + cats[..j], cat);
        assert Flatten(products[..i]) + cats[..j + 1] == Flatten(products[..i]) + cats[..j] + [cat];
        if !HasId(categories, cat.id) {
          categories := categories + [cat];
        }
        j := j + 1;
      }
      assert cats[..j] == cats;
      FlattenSnoc(products, i);
      i := i + 1;
    }
    assert products[..i] == products;
  }

  /** The position of the first entry of `s` with id `id`. */
  function FirstIndex(s: seq<Category>, id: Id): (k: nat)
    requires HasId(s, id)
    ensures k < |s| && s[k].id == id
    ensures forall j :: 0 <= j < k ==> s[j].id != id
  {
    if s[0].id == id then 0
    else
      assert HasId(s[1..], id) by {
        var k :| 0 <= k < |s| && s[k].id == id;
        assert s[1..][k - 1].id == id;
      }
      1 + FirstIndex(s[1..], id)
  }

  lemma FirstIndexAppend(s: seq<Category>, c: Category, id: Id)
    requires HasId(s, id)
    ensures HasId(s + [c], id) && FirstIndex(s + [c], id) == FirstIndex(s, id)
  {
    var k := FirstIndex(s, id);
    assert (s + [c])[k] == s[k];
    var k' := FirstIndex(s + [c], id);
    assert k' <= k;
    assert (s + [c])[k'] == s[k'];
  }

  /** No two categories `getByBrand` keeps share an id. */
  lemma {:induction false} FirstByIdDistinct(s: seq<Category>)
    ensures var r := FirstById(s); forall a, b :: 0 <= a < b < |r| ==> r[a].id != r[b].id
  {
    if s != [] {
      var p := s[..|s| - 1];
      var c := s[|s| - 1];
      FirstByIdDistinct(p);
      var kept := FirstById(p);
      assert s == p + [c];
      FirstByIdSnoc(p, c);
      if !HasId(kept, c.id) {
        var r := kept + [c];
        forall a, b | 0 <= a < b < |r|
          ensures r[a].id != r[b].id
        {
          if b == |kept| {
            assert r[b] == c;
            assert r[a] == kept[a];
          } else {
            assert r[a] == kept[a] && r[b] == kept[b];
          }
        }
      }
    }
  }

  /** Every id of the input is kept, and only categories of the input are kept. */
  lemma {:induction false} FirstByIdCovers(s: seq<Category>)
    ensures forall c :: c in s ==> HasId(FirstById(s), c.id)
    ensures forall c :: c in FirstById(s) ==> c in s
  {
    if s != [] {
      var p := s[..|s| - 1];
      var c := s[|s| - 1];
      assert s == p + [c];
      FirstByIdCovers(p);
      var kept := FirstById(p);
      forall x | x in s
        ensures HasId(FirstById(s), x.id)
      {
        if x in p {
          var k :| 0 <= k < |kept| && kept[k].id == x.id;
          assert FirstById(s)[k] == kept[k];
        } else if !HasId(kept, c.id) {
          assert FirstById(s)[|kept|] == c;
        }
      }
    }
  }

  /** A category whose id was not kept so far is the first of its id. */
  lemma NewIdFirstIndex(p: seq<Category>, c: Category)
    requires !HasId(FirstById(p), c.id)
    ensures HasId(p + [c], c.id) && FirstIndex(p + [c], c.id) == |p|
  {
    var s := p + [c];
    assert s[|p|].id == c.id;
    FirstByIdCovers(p);
    forall j | 0 <= j < |p|
      ensures s[j].id != c.id
    {
      assert s[j] == p[j] && p[j] in p;
    }
  }

  /** Each kept category is the first entry of the input with its id. */
  lemma {:induction false} FirstByIdFirstAppearance(s: seq<Category>, k: nat)
    requires k < |FirstById(s)|
    ensures HasId(s, FirstById(s)[k].id)
    ensures FirstById(s)[k] == s[FirstIndex(s, FirstById(s)[k].id)]
  {
    var p := s[..|s| - 1];
    var c := s[|s| - 1];
    assert s == p + [c];
    FirstByIdSnoc(p, c);
    var kept := FirstById(p);
    if k < |kept| {
      FirstByIdFirstAppearance(p, k);
      FirstIndexAppend(p, c, kept[k].id);
      assert FirstById(s)[k] == kept[k];
    } else {
      NewIdFirstIndex(p, c);
    }
  }

  /** The kept categories are in the order in which their ids first appear. */
  lemma {:induction false} FirstByIdOrder(s: seq<Category>, a: nat, b: nat)
    requires a < b < |FirstById(s)|
    ensures HasId(s, FirstById(s)[a].id) && HasId(s, FirstById(s)[b].id)
    ensures FirstIndex(s, FirstById(s)[a].id) < FirstIndex(s, FirstById(s)[b].id)
  {
    var p := s[..|s| - 1];
    var c := s[|s| - 1];
    assert s == p + [c];
    FirstByIdSnoc(p, c);
    var kept := FirstById(p);
    FirstByIdFirstAppearance(p, a);
    FirstIndexAppend(p, c, kept[a].id);
    assert FirstById(s)[a] == kept[a];
    if b < |kept| {
      FirstByIdOrder(p, a, b);
      FirstIndexAppend(p, c, kept[b].id);
      assert FirstById(s)[b] == kept[b];
    } else {
      NewIdFirstIndex(p, c);
    }
  }

  /**
   * The comparison at categoryController.ts:144 as written: `===` on two
   * `_id` objects compares their identity, which `ref` stands for here,
   * not their value.
   */
  datatype Held = Held(ref: nat, doc: Category)

  /** The de-duplication as written, keyed on object identity. */
  function FirstByIdentity(s: seq<Held>): seq<Held> {
    if s == [] then []
    else
      var kept := FirstByIdentity(s[..|s| - 1]);
      var c := s[|s| - 1];
      if exists k :: 0 <= k < |kept| && kept[k].ref == c.ref then kept else kept + [c]
  }

  /**
   * If the store hands each product its own copy of a category document,
   * the two copies hold two distinct `_id` objects: as written both are
   * kept, and the tree then shows that category twice. Keyed on the id
   * value, one copy is kept. (When every product shares one copy of the
   * document, identity and value agree and nothing is duplicated.)
   */
  lemma IdentityKeepsDuplicates()
    ensures
      var face := Category("c1", "face", "face", Some(["root"]));
      var kept := FirstByIdentity([Held(1, face), Held(2, face)]);
      && |kept| == 2 && kept[0].doc.id == kept[1].doc.id
      && |GetChildren([kept[0].doc, kept[1].doc], "root", 1)| == 2
      && |FirstById([face, face])| == 1
  {
    var face := Category("c1", "face", "face", Some(["root"]));
    IdentityKeepsBoth(face);
    DuplicateShownTwice(face);
    ValueKeepsOne(face);
  }

  /** Two holders of one document under distinct identities are both kept as written. */
  lemma IdentityKeepsBoth(doc: Category)
    ensures FirstByIdentity([Held(1, doc), Held(2, doc)]) == [Held(1, doc), Held(2, doc)]
  {
    var h1, h2 := Held(1, doc), Held(2, doc);
    assert [h1, h2][..1] == [h1];
    assert [h1][..0] == [];
    assert FirstByIdentity([h1]) == [h1];
    assert !(exists k :: 0 <= k < |[h1]| && [h1][k].ref == h2.ref);
  }

  /** Keyed on the id value, the second copy of a document is dropped. */
  lemma ValueKeepsOne(doc: Category)
    ensures FirstById([doc, doc]) == [doc]
  {
    assert [doc, doc][..1] == [doc];
    assert [doc][..0] == [];
    assert FirstById([doc]) == [doc];
    assert HasId([doc], doc.id) by { assert [doc][0].id == doc.id; }
  }

  /** A child listed twice in the source shows up twice in the tree. */
  lemma DuplicateShownTwice(doc: Category)
    requires doc.parents == Some(["root"])
    ensures |GetChildren([doc, doc], "root", 1)| == 2
  {
    GetChildrenSpec([doc, doc], "root", 1);
    assert [doc, doc][1..] == [doc];
    assert [doc][1..] == [];
    assert IsChildAt(doc, "root", 1);
    assert Matches([doc], "root", 1) == [doc] + Matches([], "root", 1);
    assert Matches([doc, doc], "root", 1) == [doc] + Matches([doc], "root", 1);
  }

  // ---------------------------------------------------------------------
  // The getChildren and update handlers

  /** `categoryService.getOneByName(name)`: the first category with that name. */
  function FindByName(store: seq<Category>, name: string): (r: Option<Category>)
    ensures r.Some? ==> r.value in store && r.value.name == name
    ensures r.None? <==> forall c :: c in store ==> c.name != name
  {
    if store == [] then None
    else if store[0].name == name then Some(store[0])
    else
      assert forall c :: c in store ==> c == store[0] || c in store[1..];
      FindByName(store[1..], name)
  }

  /** `categoryService.getByParents(id)`: the categories listing `id` among
      their parents, in store order. */
  function WithParent(store: seq<Category>, id: Id): (r: seq<Category>)
    ensures forall c :: c in r <==> c in store && c.parents.Some? && id in c.parents.value
  {
    if store == [] then []
    else
      assert forall c :: c in store ==> c == store[0] || c in store[1..];
      var c := store[0];
      (if c.parents.Some? && id in c.parents.value then [c] else []) + WithParent(store[1..], id)
  }

  /**
   * The `getChildren` handler. `filterName` is the `name` of the parsed
   * `filter` query, `None` when `JSON.parse` throws or `name` is not a
   * string. A non-string filter is a 400; otherwise the category named by
   * the lower-cased name is looked up (404 when there is none) and
   * returned with the tree of its descendants from depth 1.
   */
  function GetChildrenHandler(filter: JsValue, filterName: Option<string>, store: seq<Category>): (r: Reply<Node>)
    ensures !filter.Str? ==> r == Error(400)
    ensures filter.Str? && filterName.None? ==> r == Error(500)
    ensures filter.Str? && filterName.Some? ==>
      (r == Error(404) <==> forall c :: c in store ==> c.name != Lower(filterName.value))
    ensures filter.Str? && filterName.Some? && (exists c :: c in store && c.name == Lower(filterName.value)) ==>
      r.Ok?
    ensures r.Ok? ==>
      exists c :: c in store && c.name == Lower(filterName.value)
        && r.data == Node(c.name, c.slug, c.id, GetChildren(WithParent(store, c.id), c.id, 1))
  {
    if !filter.Str? then Error(400)
    else if filterName.None? then Error(500)
    else
      match FindByName(store, Lower(filterName.value))
      case None => Error(404)
      case Some(c) =>
        Ok(Node(c.name, c.slug, c.id, GetChildren(WithParent(store, c.id), c.id, 1)))
  }

  /** What `update` asks the store to write on the category. */
  datatype CategoryUpdate = CategoryUpdate(name: JsValue, parents: seq<Id>)

  /** `categoryService.getManyByNames(names)` mapped to ids: the ids of the
      categories whose name is one of `names`, in store order. */
  function ParentIds(store: seq<Category>, names: seq<string>): (ids: seq<Id>)
    ensures |ids| <= |store|
    ensures |ids| == 0 <==> forall c :: c in store ==> c.name !in names
    ensures forall id :: id in ids <==> exists c :: c in store && c.name in names && c.id == id
  {
    if store == [] then []
    else
      assert forall c :: c in store ==> c == store[0] || c in store[1..];
      var c := store[0];
      (if c.name in names then [c.id] else []) + ParentIds(store[1..], names)
  }

  /**
   * The `update` handler: a 404 when none of `parentNames` names a
   * category, otherwise the update setting `name` and the ids of the
   * matched parents.
   */
  function UpdateHandler(name: JsValue, parentNames: seq<string>, store: seq<Category>): (r: Reply<CategoryUpdate>)
    ensures r == Error(404) <==> forall c :: c in store ==> c.name !in parentNames
    ensures r != Error(404) ==> r.Ok? && r.data.name == name
    ensures r.Ok? ==> |r.data.parents| > 0
    ensures r.Ok? ==>
      forall id :: id in r.data.parents <==> exists c :: c in store && c.name in parentNames && c.id == id
  {
    var ids := ParentIds(store, parentNames);
    if |ids| == 0 then
      Error(404)
    else
      Ok(CategoryUpdate(name, ids))
  }
}
