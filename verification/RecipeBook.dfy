/** The player-made potions' recipes a game knows (Code/client/RecipeBook.cpp), and the ids they go by in a session
    (Code/encoding/Structs/Recipe.cpp). */
module RecipeBook {
  import opened Basics
  import opened Fnv1a

  type u32 = x: int | 0 <= x < 0x1_0000_0000

  type i32 = x: int | -0x8000_0000 <= x < 0x8000_0000

  datatype GameId = GameId(mod: u32, base: u32)

  /** The plugin number of a recipe's id: no plugin's. */
  const RECIPES: u32 := 0xFFFF_FFFE

  /** An effect, magnitude and cost as the bits of floats; its cost is each game's own. */
  datatype Effect = Effect(id: GameId, magnitude: u32, area: i32, duration: i32, cost: u32)

  datatype Recipe = Recipe(poison: bool, effects: seq<Effect>)

  // ----- Identity -----

  /** An effect as a recipe's identity reads it, but for its cost. */
  function Key(e: Effect): seq<int> {
    [e.id.mod, e.id.base, e.magnitude, e.area, e.duration]
  }

  function Keys(effects: seq<Effect>): seq<seq<int>> {
    if effects == [] then [] else [Key(effects[0])] + Keys(effects[1..])
  }

  /** The order of tuples. */
  predicate AtMost(a: seq<int>, b: seq<int>) {
    a == [] || (b != [] && (a[0] < b[0] || (a[0] == b[0] && AtMost(a[1..], b[1..]))))
  }

  function Insert(key: seq<int>, keys: seq<seq<int>>): seq<seq<int>> {
    if keys == [] || AtMost(key, keys[0]) then [key] + keys else [keys[0]] + Insert(key, keys[1..])
  }

  function Sorted(keys: seq<seq<int>>): seq<seq<int>> {
    if keys == [] then [] else Insert(keys[0], Sorted(keys[1..]))
  }

  /** The same potion. */
  predicate Same(a: Recipe, b: Recipe) {
    a.poison == b.poison && |a.effects| == |b.effects| && Sorted(Keys(a.effects)) == Sorted(Keys(b.effects))
  }

  /** A value's four bytes, lowest first; a negative one's as two's complement. */
  function Mix(hash: nat, value: int): (r: nat)
    ensures r < U32
  {
    Round(Round(Round(Round(hash, value % 0x100), value / 0x100 % 0x100), value / 0x1_0000 % 0x100),
          value / 0x100_0000 % 0x100)
  }

  function MixAll(hash: nat, values: seq<int>): (r: nat)
    requires hash < U32
    ensures r < U32
    decreases |values|
  {
    if values == [] then hash else MixAll(Mix(hash, values[0]), values[1..])
  }

  function MixKeys(hash: nat, keys: seq<seq<int>>): (r: nat)
    requires hash < U32
    ensures r < U32
    decreases |keys|
  {
    if keys == [] then hash else MixKeys(MixAll(hash, keys[0]), keys[1..])
  }

  /** A recipe's id: a hash of the poison flag and the sorted effects. */
  function Id(r: Recipe): GameId {
    GameId(RECIPES, MixKeys(Mix(BASIS, if r.poison then 1 else 0), Sorted(Keys(r.effects))))
  }

  predicate IsId(id: GameId) {
    id.mod == RECIPES
  }

  // ----- The book -----

  /** The recipes in the order learned, each id's place, and this game's form for it. */
  datatype Book = Book(recipes: seq<Recipe>, index: map<GameId, nat>, forms: map<GameId, nat>)

  const NEW_BOOK := Book([], map[], map[])

  function Learned(b: Book, r: Recipe, form: nat): Book {
    var forms := if form != 0 then b.forms[Id(r) := form] else b.forms;
    if Id(r) in b.index then b.(forms := forms)
    else Book(b.recipes + [r], b.index[Id(r) := |b.recipes|], forms)
  }

  /** The index tells where each recipe's id is, and of no others. */
  ghost predicate Indexed(b: Book) {
    && (forall i {:trigger b.recipes[i]} :: 0 <= i < |b.recipes| ==>
        Id(b.recipes[i]) in b.index && b.index[Id(b.recipes[i])] == i)
    && (forall id {:trigger b.index[id]} :: id in b.index ==>
        b.index[id] < |b.recipes| && Id(b.recipes[b.index[id]]) == id)
  }

  function Find(b: Book, id: GameId): Option<Recipe> {
    if id in b.index && b.index[id] < |b.recipes| then Some(b.recipes[b.index[id]]) else None
  }

  predicate SameFound(a: Option<Recipe>, b: Option<Recipe>) {
    match (a, b)
    case (Some(x), Some(y)) => Same(x, y)
    case (None, None) => true
    case _ => false
  }

  /** An inventory entry's item and coating. */
  datatype Entry = Entry(item: GameId, poison: GameId)

  function IdsOf(entries: seq<Entry>): seq<GameId> {
    if entries == [] then []
    else IdsOf(entries[..|entries| - 1]) + [entries[|entries| - 1].item, entries[|entries| - 1].poison]
  }

  predicate Has(recipes: seq<Recipe>, r: Recipe) {
    exists i :: 0 <= i < |recipes| && Same(recipes[i], r)
  }

  /** A recipe listed, if the id is a recipe's, known, and not listed yet. */
  function Listed(b: Book, named: seq<Recipe>, id: GameId): seq<Recipe> {
    if IsId(id) && Find(b, id).Some? && !Has(named, Find(b, id).value) then named + [Find(b, id).value] else named
  }

  function RecipesOf(b: Book, ids: seq<GameId>): seq<Recipe> {
    if ids == [] then [] else Listed(b, RecipesOf(b, ids[..|ids| - 1]), ids[|ids| - 1])
  }

  lemma NextEntry(b: Book, entries: seq<Entry>, i: nat)
    requires i < |entries|
    ensures RecipesOf(b, IdsOf(entries[..i + 1]))
         == Listed(b, Listed(b, RecipesOf(b, IdsOf(entries[..i])), entries[i].item), entries[i].poison)
  {
    hide Id, Same, Listed;
    var e, ids := entries[i], IdsOf(entries[..i]);
    assert entries[..i + 1][..i] == entries[..i];
    assert (ids + [e.item, e.poison])[..|ids| + 1] == ids + [e.item] && (ids + [e.item])[..|ids|] == ids;
  }

  class Recipes {
    var recipes: seq<Recipe>
    var index: map<GameId, nat>
    var forms: map<GameId, nat>

    ghost function Value(): Book
      reads this
    {
      Book(recipes, index, forms)
    }

    constructor ()
      ensures Value() == NEW_BOOK
    {
      recipes, index, forms := [], map[], map[];
    }

    method Learn(r: Recipe, form: nat) returns (id: GameId)
      modifies this
      ensures id == Id(r) && Value() == Learned(old(Value()), r, form)
    {
      hide Id;
      id := Id(r);
      if form != 0 { forms := forms[id := form]; }
      if id in index { return; }
      index := index[id := |recipes|];
      recipes := recipes + [r];
    }

    method Lookup(id: GameId) returns (found: Option<Recipe>)
      requires Indexed(Value())
      ensures found == Find(Value(), id)
    {
      if id in index { return Some(recipes[index[id]]); }
      return None;
    }

    /** This game's form for an id: the one it had while that is still the potion, else a new one; 0 for an id not known
        or a potion not made. `recipeOf` tells which potion a form is now, `make` makes one. */
    method FormFor(id: GameId, recipeOf: nat -> Option<Recipe>, make: Recipe -> nat) returns (form: nat)
      requires Indexed(Value())
      modifies this
      ensures var b := old(Value());
              match Find(b, id)
              case None => form == 0 && Value() == b
              case Some(r) =>
                var had := if id in b.forms then b.forms[id] else 0;
                if had != 0 && SameFound(recipeOf(had), Some(r)) then form == had && Value() == b
                else form == make(r) && Value() == if form != 0 then b.(forms := b.forms[id := form]) else b
    {
      hide Id, Same;
      var recipe := Lookup(id);
      if recipe.None? { return 0; }
      assert Id(recipe.value) == id;
      var made := if id in forms then forms[id] else 0;
      if made != 0 && SameFound(recipeOf(made), recipe) { return made; }
      made := make(recipe.value);
      if made != 0 { var _ := Learn(recipe.value, made); }
      return made;
    }

    /** The recipes learned since `sent` of them were told, and the new count told. */
    method Unsent(sent: nat) returns (unsent: seq<Recipe>, told: nat)
      ensures if sent < |recipes| then unsent == recipes[sent..] && told == |recipes| else unsent == [] && told == sent
    {
      if sent >= |recipes| { return [], sent; }
      return recipes[sent..], |recipes|;
    }

    /** The known recipes an inventory's items and coatings name. */
    method Of(entries: seq<Entry>) returns (named: seq<Recipe>)
      requires Indexed(Value())
      ensures named == RecipesOf(Value(), IdsOf(entries))
    {
      hide Id, Same, Indexed, Listed;
      named := [];
      for i := 0 to |entries|
        invariant named == RecipesOf(Value(), IdsOf(entries[..i]))
      {
        NextEntry(Value(), entries, i);
        named := List(named, entries[i].item);
        named := List(named, entries[i].poison);
      }
      assert entries[..|entries|] == entries;
    }

    method List(named0: seq<Recipe>, id: GameId) returns (named: seq<Recipe>)
      requires Indexed(Value())
      ensures named == Listed(Value(), named0, id)
    {
      hide Id, Same;
      named := named0;
      if !IsId(id) { return; }
      var recipe := Lookup(id);
      if recipe.None? { return; }
      var i := 0;
      while i < |named|
        invariant 0 <= i <= |named| && forall j :: 0 <= j < i ==> !Same(named[j], recipe.value)
      {
        if Same(named[i], recipe.value) { return; }
        i := i + 1;
      }
      return named + [recipe.value];
    }
  }
}
