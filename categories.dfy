/** backend/controllers/categoryController.js: the per-user Category collection,
    whose create refuses a name the user already has. */
module Categories {
  import opened Common
  import opened Records
  import opened Sorting

  const DEFAULT_COLOR: string := "#4f46e5"

  /** No user has two categories of the same name. */
  predicate UniqueNames(cats: seq<Category>) {
    forall i, j :: 0 <= i < j < |cats| ==> !(cats[i].userId == cats[j].userId && cats[i].name == cats[j].name)
  }

  /** `findOne({ userId, name })` found something. */
  predicate HasName(cats: seq<Category>, user: UserId, name: string) {
    exists i :: 0 <= i < |cats| && cats[i].userId == user && cats[i].name == name
  }

  /** `{ _id: id, userId }`. */
  function IsCategory(user: UserId, id: DocId): Category -> bool {
    (c: Category) => c.id == id && c.userId == user
  }

  /** `{ name, color }` applied by findOneAndUpdate; a field left out keeps its value. */
  function Rename(c: Category, name: Option<string>, color: Option<string>): (r: Category)
    ensures r.id == c.id && r.userId == c.userId && r.createdAt == c.createdAt
    ensures r.name == name.GetOr(c.name) && r.color == color.GetOr(c.color)
  {
    c.(name := name.GetOr(c.name), color := color.GetOr(c.color))
  }

  /** The update does not look for another category of the same name, so it can
      give a user two categories of one name. */
  lemma UpdateCanDuplicateNames(a: Category, b: Category)
    requires a.userId == b.userId && a.name != b.name && a.id != b.id
    ensures UniqueNames([a, b])
    ensures !UniqueNames([a, Rename(b, Some(a.name), None)])
  {
    var s := [a, Rename(b, Some(a.name), None)];
    assert s[0].userId == s[1].userId && s[0].name == s[1].name;
  }

  predicate NewestFirst(a: Category, b: Category) { a.createdAt >= b.createdAt }

  function NegCreatedAt(c: Category): int { -c.createdAt }

  function OwnedBy(user: UserId): Category -> bool {
    (c: Category) => c.userId == user
  }

  /** getCategories: the user's categories, newest first. */
  function ListCategories(cats: seq<Category>, user: UserId): (r: seq<Category>)
    ensures multiset(r) == multiset(Filter(cats, OwnedBy(user)))
    ensures forall c :: c in r <==> c in cats && c.userId == user
    ensures forall i, j :: 0 <= i < j < |r| ==> r[i].createdAt >= r[j].createdAt
  {
    IntKeyOrderIsTotal(NegCreatedAt, NewestFirst);
    var r := SortBy(Filter(cats, OwnedBy(user)), NewestFirst);
    SameElements(r, Filter(cats, OwnedBy(user)));
    r
  }

  /** Removing one category keeps ids and timestamps below the counter, ids
      distinct and names unique. */
  lemma RemoveKeepsStore(cats: seq<Category>, i: nat, n: int)
    requires i < |cats|
    requires forall k :: 0 <= k < |cats| ==> cats[k].id < n && cats[k].createdAt < n
    requires forall a, b :: 0 <= a < b < |cats| ==> cats[a].id != cats[b].id
    ensures forall k :: 0 <= k < |RemoveAt(cats, i)| ==> RemoveAt(cats, i)[k].id < n && RemoveAt(cats, i)[k].createdAt < n
    ensures forall a, b :: 0 <= a < b < |RemoveAt(cats, i)| ==> RemoveAt(cats, i)[a].id != RemoveAt(cats, i)[b].id
    ensures UniqueNames(cats) ==> UniqueNames(RemoveAt(cats, i))
  {
    var r := RemoveAt(cats, i);
    forall a, b | 0 <= a < b < |r|
      ensures r[a].id != r[b].id
      ensures UniqueNames(cats) ==> !(r[a].userId == r[b].userId && r[a].name == r[b].name)
    {
      var a', b' := if a < i then a else a + 1, if b < i then b else b + 1;
      assert r[a] == cats[a'] && r[b] == cats[b'] && a' < b';
    }
  }

  /** The Category collection; a counter stands for fresh ObjectIds and for the
      `createdAt` timestamps. */
  class CategoryStore {
    var cats: seq<Category>
    var nextId: int

    ghost predicate Valid()
      reads this
    {
      && (forall i :: 0 <= i < |cats| ==> cats[i].id < nextId && cats[i].createdAt < nextId)
      && (forall i, j :: 0 <= i < j < |cats| ==> cats[i].id != cats[j].id)
    }

    constructor()
      ensures cats == [] && Valid()
    {
      cats := [];
      nextId := 0;
    }

    /** createCategory: a missing or empty name is a 400, a name the user already has
        is a 400; otherwise the category is added with the given colour or
        "#4f46e5". With names unique before, they are unique after. */
    method Create(user: UserId, name: Option<string>, color: Option<string>) returns (res: Response<Category>)
      requires Valid()
      modifies this
      ensures Valid()
      ensures (name.None? || name.value == "") ==> res.BadRequest? && cats == old(cats)
      ensures name.Some? && name.value != "" && HasName(old(cats), user, name.value) ==>
        res.BadRequest? && cats == old(cats)
      ensures name.Some? && name.value != "" && !HasName(old(cats), user, name.value) ==>
        && res == Ok(Category(old(nextId), user, name.value, StrOr(color, DEFAULT_COLOR), old(nextId)))
        && cats == old(cats) + [res.value]
      ensures UniqueNames(old(cats)) ==> UniqueNames(cats)
    {
      if name.None? || name.value == "" {
        return BadRequest("Category name required");
      }
      var i := 0;
      while i < |cats|
        invariant 0 <= i <= |cats|
        invariant forall k :: 0 <= k < i ==> !(cats[k].userId == user && cats[k].name == name.value)
      {
        if cats[i].userId == user && cats[i].name == name.value {
          return BadRequest("Category already exists");
        }
        i := i + 1;
      }
      var c := Category(nextId, user, name.value, StrOr(color, DEFAULT_COLOR), nextId);
      cats := cats + [c];
      nextId := nextId + 1;
      res := Ok(c);
    }

    /** getCategories. */
    function GetCategories(user: UserId): (r: seq<Category>)
      reads this
      ensures forall c :: c in r <==> c in cats && c.userId == user
      ensures forall i, j :: 0 <= i < j < |r| ==> r[i].createdAt >= r[j].createdAt
    {
      ListCategories(cats, user)
    }

    /** updateCategory: 404 unless the user owns a category with that id; otherwise
        that one category gets the given name and colour. */
    method Update(user: UserId, id: DocId, name: Option<string>, color: Option<string>) returns (res: Response<Category>)
      requires Valid()
      modifies this
      ensures Valid()
      ensures nextId == old(nextId)
      ensures FindFirst(old(cats), IsCategory(user, id)).None? ==> res.NotFound? && cats == old(cats)
      ensures FindFirst(old(cats), IsCategory(user, id)).Some? ==>
        var i := FindFirst(old(cats), IsCategory(user, id)).value;
        res == Ok(Rename(old(cats)[i], name, color)) && cats == old(cats)[i := res.value]
    {
      var found := FindFirst(cats, IsCategory(user, id));
      if found.None? {
        return NotFound("Category not found");
      }
      var i := found.value;
      var c := Rename(cats[i], name, color);
      cats := cats[i := c];
      res := Ok(c);
    }

    /** deleteCategory: 404 unless the user owns a category with that id; otherwise
        exactly that category is removed. */
    method Delete(user: UserId, id: DocId) returns (res: Response<string>)
      requires Valid()
      modifies this
      ensures Valid()
      ensures nextId == old(nextId)
      ensures FindFirst(old(cats), IsCategory(user, id)).None? ==> res.NotFound? && cats == old(cats)
      ensures FindFirst(old(cats), IsCategory(user, id)).Some? ==>
        res.Ok? && cats == RemoveAt(old(cats), FindFirst(old(cats), IsCategory(user, id)).value)
      ensures forall c :: c in cats <==> (c in old(cats) && !(c.id == id && c.userId == user))
      ensures UniqueNames(old(cats)) ==> UniqueNames(cats)
    {
      var found := FindFirst(cats, IsCategory(user, id));
      if found.None? {
        return NotFound("Category not found");
      }
      var i := found.value;
      forall j | 0 <= j < |cats| && j != i
        ensures !IsCategory(user, id)(cats[j])
      {
        if j < i {
          assert cats[j].id != cats[i].id;
        } else {
          assert cats[i].id != cats[j].id;
        }
      }
      RemoveOnlyMatch(cats, IsCategory(user, id), i);
      RemoveKeepsStore(cats, i, nextId);
      cats := RemoveAt(cats, i);
      res := Ok("Category deleted");
    }
  }
}
