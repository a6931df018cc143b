/** A recipe has one id whatever its effects' order and costs, and what a book tells is what it learned. */
module RecipeBookProofs {
  import opened Basics
  import opened RecipeBook

  // ----- The order of keys -----

  lemma {:induction false} Total(a: seq<int>, b: seq<int>)
    ensures AtMost(a, b) || AtMost(b, a)
    ensures AtMost(a, b) && AtMost(b, a) ==> a == b
  {
    if a != [] && b != [] {
      Total(a[1..], b[1..]);
      assert a == [a[0]] + a[1..] && b == [b[0]] + b[1..];
    }
  }

  lemma {:induction false} Transitive(a: seq<int>, b: seq<int>, c: seq<int>)
    requires AtMost(a, b) && AtMost(b, c)
    ensures AtMost(a, c)
  {
    if a != [] && a[0] == b[0] && b[0] == c[0] { Transitive(a[1..], b[1..], c[1..]); }
  }

  /** Inserting two keys gives the same in either order. */
  lemma {:induction false} InsertCommutes(x: seq<int>, y: seq<int>, keys: seq<seq<int>>)
    ensures Insert(x, Insert(y, keys)) == Insert(y, Insert(x, keys))
  {
    hide AtMost;
    Total(x, y);
    if keys != [] {
      var k := keys[0];
      Total(x, k);
      Total(y, k);
      if AtMost(x, y) && AtMost(y, k) { Transitive(x, y, k); }
      if AtMost(y, x) && AtMost(x, k) { Transitive(y, x, k); }
      InsertCommutes(x, y, keys[1..]);
    }
  }

  lemma {:induction false} SortedInsert(keys: seq<seq<int>>, i: nat)
    requires i < |keys|
    ensures Sorted(keys) == Insert(keys[i], Sorted(keys[..i] + keys[i + 1..]))
    decreases |keys|
  {
    hide Insert;
    var rest := keys[..i] + keys[i + 1..];
    if i == 0 {
      assert rest == keys[1..];
    } else {
      SortedInsert(keys[1..], i - 1);
      assert keys[1..][..i - 1] + keys[1..][i..] == rest[1..];
      InsertCommutes(keys[0], keys[i], Sorted(rest[1..]));
    }
  }

  /** Sorting forgets the order. */
  lemma {:induction false} SortedPermuted(a: seq<seq<int>>, b: seq<seq<int>>)
    requires multiset(a) == multiset(b)
    ensures Sorted(a) == Sorted(b)
    decreases |a|
  {
    hide Insert;
    if a == [] {
      assert |multiset(b)| == 0;
    } else {
      assert a[0] in multiset(b);
      var i :| 0 <= i < |b| && b[i] == a[0];
      var rest := b[..i] + b[i + 1..];
      RemoveAt(a, 0);
      RemoveAt(b, i);
      assert a[..0] + a[1..] == a[1..];
      SortedPermuted(a[1..], rest);
      SortedInsert(b, i);
    }
  }

  lemma {:induction false} InsertKeeps(key: seq<int>, keys: seq<seq<int>>)
    ensures multiset(Insert(key, keys)) == multiset(keys) + multiset{key}
  {
    hide AtMost;
    if keys != [] && !AtMost(key, keys[0]) {
      InsertKeeps(key, keys[1..]);
      assert keys == [keys[0]] + keys[1..];
    }
  }

  lemma {:induction false} SortedKeeps(keys: seq<seq<int>>)
    ensures multiset(Sorted(keys)) == multiset(keys)
  {
    if keys != [] {
      SortedKeeps(keys[1..]);
      InsertKeeps(keys[0], Sorted(keys[1..]));
      assert keys == [keys[0]] + keys[1..];
    }
  }

  lemma {:induction false} KeysLength(effects: seq<Effect>)
    ensures |Keys(effects)| == |effects|
  {
    if effects != [] { KeysLength(effects[1..]); }
  }

  /** Effects without their costs. */
  function Uncosted(effects: seq<Effect>): (r: seq<Effect>)
    ensures |r| == |effects| && forall i :: 0 <= i < |r| ==> r[i] == effects[i].(cost := 0)
  {
    seq(|effects|, i requires 0 <= i < |effects| => effects[i].(cost := 0))
  }

  /** A key tells an effect but for its cost. */
  lemma KeyIff(e: Effect, f: Effect)
    ensures Key(e) == Key(f) <==> e.(cost := 0) == f.(cost := 0)
  {
    var a, b := Key(e), Key(f);
    if a == b {
      assert a[0] == b[0] && a[1] == b[1] && a[2] == b[2] && a[3] == b[3] && a[4] == b[4];
    }
  }

  lemma {:induction false} KeyCount(effects: seq<Effect>, e: Effect)
    ensures multiset(Keys(effects))[Key(e)] == multiset(Uncosted(effects))[e.(cost := 0)]
  {
    hide Key;
    if effects != [] {
      var rest := effects[1..];
      KeyCount(rest, e);
      KeyIff(effects[0], e);
      assert Keys(effects) == [Key(effects[0])] + Keys(rest);
      assert Uncosted(effects) == [effects[0].(cost := 0)] + Uncosted(rest);
    }
  }

  lemma {:induction false} KeysIn(effects: seq<Effect>, key: seq<int>)
    ensures key in Keys(effects) ==> exists e :: e in effects && Key(e) == key
  {
    hide Key;
    if effects != [] && key in Keys(effects) && key != Key(effects[0]) {
      KeysIn(effects[1..], key);
    }
  }

  lemma SameKeysIff(a: seq<Effect>, b: seq<Effect>)
    ensures multiset(Keys(a)) == multiset(Keys(b)) <==> multiset(Uncosted(a)) == multiset(Uncosted(b))
  {
    hide Key, Keys;
    var ua, ub := multiset(Uncosted(a)), multiset(Uncosted(b));
    if multiset(Keys(a)) == multiset(Keys(b)) {
      forall u ensures ua[u] == ub[u] {
        if u.cost == 0 {
          KeyCount(a, u);
          KeyCount(b, u);
          assert u.(cost := 0) == u;
        } else {
          assert u !in Uncosted(a) && u !in Uncosted(b);
        }
      }
    }
    if ua == ub {
      forall key ensures multiset(Keys(a))[key] == multiset(Keys(b))[key] {
        KeysIn(a, key);
        KeysIn(b, key);
        if e :| Key(e) == key {
          KeyCount(a, e);
          KeyCount(b, e);
        }
      }
    }
  }

  /** Two recipes are the same potion exactly if both are poisons or neither and their effects are the same but for
      order and cost; and then they have one id. */
  lemma SameIff(a: Recipe, b: Recipe)
    ensures Same(a, b) <==> a.poison == b.poison && multiset(Uncosted(a.effects)) == multiset(Uncosted(b.effects))
    ensures Same(a, b) ==> Id(a) == Id(b)
  {
    hide Key, Keys, Insert, Sorted;
    SameKeysIff(a.effects, b.effects);
    SortedKeeps(Keys(a.effects));
    SortedKeeps(Keys(b.effects));
    KeysLength(a.effects);
    KeysLength(b.effects);
    if multiset(Keys(a.effects)) == multiset(Keys(b.effects)) {
      SortedPermuted(Keys(a.effects), Keys(b.effects));
      assert |multiset(Keys(a.effects))| == |a.effects| && |multiset(Keys(b.effects))| == |b.effects|;
    }
  }

  // ----- Any run of learning and telling -----

  datatype Event = DoLearn(recipe: Recipe, form: nat) | DoTell

  /** The book, how many recipes a game was told, and all it was told. */
  datatype World = World(book: Book, sent: nat, told: seq<Recipe>)

  function Next(w: World, event: Event): World {
    match event
    case DoLearn(r, form) => w.(book := Learned(w.book, r, form))
    case DoTell =>
      if w.sent < |w.book.recipes| then World(w.book, |w.book.recipes|, w.told + w.book.recipes[w.sent..]) else w
  }

  /** After the first n events, from a new book and a game told of `sent` recipes before. */
  function After(events: seq<Event>, sent: nat, n: nat): World
    requires n <= |events|
  {
    if n == 0 then World(NEW_BOOK, sent, []) else Next(After(events, sent, n - 1), events[n - 1])
  }

  lemma LearnedIndexed(b: Book, r: Recipe, form: nat)
    requires Indexed(b)
    ensures Indexed(Learned(b, r, form))
  {
    hide Id;
  }

  ghost predicate Inv(w: World, sent: nat) {
    && Indexed(w.book) && sent <= w.sent
    && (if sent < w.sent then w.sent <= |w.book.recipes| && w.told == w.book.recipes[sent..w.sent] else w.told == [])
  }

  lemma NextKeepsInv(w: World, event: Event, sent: nat)
    requires Inv(w, sent)
    ensures Inv(Next(w, event), sent) && w.book.recipes <= Next(w, event).book.recipes
  {
    hide Id, Indexed;
    match event
    case DoLearn(r, form) =>
      LearnedIndexed(w.book, r, form);
    case DoTell =>
      if w.sent < |w.book.recipes| && sent < w.sent {
        assert w.book.recipes[sent..w.sent] + w.book.recipes[w.sent..] == w.book.recipes[sent..];
      }
  }

  /** In any run, the game has been told exactly the recipes learned from its starting count on, up to where it is now,
      in the order learned, none skipped, repeated or sharing an id; and every id's place is right. */
  lemma {:induction false} ToldInOrder(events: seq<Event>, sent: nat, n: nat)
    requires n <= |events|
    ensures Inv(After(events, sent, n), sent)
  {
    hide Id, Next;
    if n > 0 {
      ToldInOrder(events, sent, n - 1);
      NextKeepsInv(After(events, sent, n - 1), events[n - 1], sent);
    }
  }

  /** Right after a telling nothing is left to tell. */
  lemma AllTold(events: seq<Event>, sent: nat, n: nat)
    requires 0 < n <= |events| && events[n - 1].DoTell? && sent <= |After(events, sent, n).book.recipes|
    ensures After(events, sent, n).told == After(events, sent, n).book.recipes[sent..]
  {
    hide Id, Indexed;
    ToldInOrder(events, sent, n - 1);
    ToldInOrder(events, sent, n);
  }

  /** The first recipe learned under an id. */
  function FirstLearned(events: seq<Event>, n: nat, id: GameId): Option<Recipe>
    requires n <= |events|
  {
    if n == 0 then None
    else
      var earlier := FirstLearned(events, n - 1, id);
      if earlier.None? && events[n - 1].DoLearn? && Id(events[n - 1].recipe) == id then Some(events[n - 1].recipe)
      else earlier
  }

  lemma NothingFound(id: GameId)
    ensures Find(NEW_BOOK, id) == None
  {
  }

  lemma LearnedFinds(b: Book, r: Recipe, form: nat, id: GameId)
    requires Indexed(b)
    ensures Find(Learned(b, r, form), id) == if Find(b, id).None? && Id(r) == id then Some(r) else Find(b, id)
  {
    hide Id;
  }

  /** A book finds under each id the first recipe it learned by it, and under no other id anything. */
  lemma {:induction false} FindsFirstLearned(events: seq<Event>, sent: nat, n: nat, id: GameId)
    requires n <= |events|
    ensures Find(After(events, sent, n).book, id) == FirstLearned(events, n, id)
  {
    hide Id, Indexed, Find, Learned;
    if n == 0 {
      NothingFound(id);
    } else {
      ToldInOrder(events, sent, n - 1);
      FindsFirstLearned(events, sent, n - 1, id);
      if events[n - 1].DoLearn? {
        LearnedFinds(After(events, sent, n - 1).book, events[n - 1].recipe, events[n - 1].form, id);
      }
    }
  }

  /** The form noted last for an id. */
  function LastForm(events: seq<Event>, n: nat, id: GameId): Option<nat>
    requires n <= |events|
  {
    if n == 0 then None
    else
      var e := events[n - 1];
      if e.DoLearn? && Id(e.recipe) == id && e.form != 0 then Some(e.form) else LastForm(events, n - 1, id)
  }

  /** A book has for each id the form it was last learned with, if ever with one. */
  lemma {:induction false} FormsAreLatest(events: seq<Event>, sent: nat, n: nat, id: GameId)
    requires n <= |events|
    ensures var forms := After(events, sent, n).book.forms;
            (if id in forms then Some(forms[id]) else None) == LastForm(events, n, id)
  {
    hide Id;
    if n > 0 { FormsAreLatest(events, sent, n - 1, id); }
  }

  // ----- An inventory's recipes -----

  ghost predicate NoRepeats(recipes: seq<Recipe>) {
    forall i, j {:trigger recipes[i], recipes[j]} :: 0 <= i < j < |recipes| ==> !Same(recipes[i], recipes[j])
  }

  /** An inventory's recipes are, without repeats, exactly those known by the recipe ids it names. */
  lemma {:induction false} RecipesOfIsRight(b: Book, ids: seq<GameId>)
    requires Indexed(b)
    ensures NoRepeats(RecipesOf(b, ids))
    ensures forall r :: r in RecipesOf(b, ids) <==> exists id :: id in ids && IsId(id) && Find(b, id) == Some(r)
  {
    hide Id, Same;
    if ids != [] {
      var init, last := ids[..|ids| - 1], ids[|ids| - 1];
      RecipesOfIsRight(b, init);
      assert ids == init + [last];
      forall r ensures r in RecipesOf(b, ids) <==> exists id :: id in ids && IsId(id) && Find(b, id) == Some(r) {
        OneMore(b, init, last, r);
      }
    }
  }

  lemma {:induction false} IdsAre(entries: seq<Entry>, id: GameId)
    ensures id in IdsOf(entries) <==> exists e :: e in entries && (e.item == id || e.poison == id)
  {
    if entries != [] {
      var init, last := entries[..|entries| - 1], entries[|entries| - 1];
      IdsAre(init, id);
      assert entries == init + [last];
    }
  }

  /** An inventory's recipes are exactly the known ones that its items or coatings name by a recipe's id. */
  lemma InventoryIsRight(b: Book, entries: seq<Entry>, r: Recipe)
    requires Indexed(b)
    ensures r in RecipesOf(b, IdsOf(entries))
       <==> exists e :: e in entries && ((IsId(e.item) && Find(b, e.item) == Some(r))
                                         || (IsId(e.poison) && Find(b, e.poison) == Some(r)))
  {
    hide Id, Same, Indexed, Find;
    RecipesOfIsRight(b, IdsOf(entries));
    if e :| e in entries && ((IsId(e.item) && Find(b, e.item) == Some(r))
                             || (IsId(e.poison) && Find(b, e.poison) == Some(r))) {
      IdsAre(entries, e.item);
      IdsAre(entries, e.poison);
    }
    if id :| id in IdsOf(entries) && IsId(id) && Find(b, id) == Some(r) { IdsAre(entries, id); }
  }

  lemma {:induction false} IdsGrow(entries: seq<Entry>, n: nat)
    requires n <= |entries|
    ensures IdsOf(entries[..n]) <= IdsOf(entries)
    decreases |entries|
  {
    if n == |entries| {
      assert entries[..n] == entries;
    } else {
      var init := entries[..|entries| - 1];
      IdsGrow(init, n);
      assert init[..n] == entries[..n];
    }
  }

  lemma {:induction false} RecipesGrow(b: Book, ids: seq<GameId>, n: nat)
    requires n <= |ids|
    ensures RecipesOf(b, ids[..n]) <= RecipesOf(b, ids)
    decreases |ids|
  {
    hide Id, Same, Find;
    if n == |ids| {
      assert ids[..n] == ids;
    } else {
      var init := ids[..|ids| - 1];
      RecipesGrow(b, init, n);
      assert init[..n] == ids[..n];
    }
  }

  /** They are in the order of the inventory: those of its first entries come first. */
  lemma InventoryInOrder(b: Book, entries: seq<Entry>, n: nat)
    requires n <= |entries|
    ensures RecipesOf(b, IdsOf(entries[..n])) <= RecipesOf(b, IdsOf(entries))
  {
    hide RecipesOf, IdsOf;
    IdsGrow(entries, n);
    var ids, some := IdsOf(entries), IdsOf(entries[..n]);
    assert ids[..|some|] == some;
    RecipesGrow(b, ids, |some|);
  }

  lemma OneMore(b: Book, init: seq<GameId>, last: GameId, r: Recipe)
    requires Indexed(b)
    requires r in RecipesOf(b, init) <==> exists id :: id in init && IsId(id) && Find(b, id) == Some(r)
    requires forall q :: q in RecipesOf(b, init) ==> exists id :: id in init && IsId(id) && Find(b, id) == Some(q)
    ensures r in Listed(b, RecipesOf(b, init), last)
       <==> exists id :: id in init + [last] && IsId(id) && Find(b, id) == Some(r)
  {
    hide Id, Same, RecipesOf;
    var known := Find(b, last);
    if IsId(last) && known.Some? && Has(RecipesOf(b, init), known.value) {
      var i :| 0 <= i < |RecipesOf(b, init)| && Same(RecipesOf(b, init)[i], known.value);
      var q := RecipesOf(b, init)[i];
      SameIff(q, known.value);
      assert q in RecipesOf(b, init);
      var id :| id in init && IsId(id) && Find(b, id) == Some(q);
      assert Id(q) == id && Id(known.value) == last;
    }
    if IsId(last) && known == Some(r) { assert last in init + [last]; }
    if id :| id in init && IsId(id) && Find(b, id) == Some(r) { assert id in init + [last]; }
  }
}
