/** The favorites list: a list of items toggled in and out by id. */
module Favorites {
  import opened Gifs

  /** `favorites.some(fav => fav.id === gifId)`. */
  predicate IsFavorite(favs: seq<Gif>, id: string): (b: bool)
    ensures b <==> exists g :: g in favs && g.id == id
  {
    exists i :: 0 <= i < |favs| && favs[i].id == id
  }

  /** `favorites.filter(fav => fav.id !== id)`. */
  function RemoveId(favs: seq<Gif>, id: string): (r: seq<Gif>)
    ensures |r| <= |favs|
    ensures forall g :: g in r <==> g in favs && g.id != id
  {
    if favs == [] then []
    else if favs[0].id != id then [favs[0]] + RemoveId(favs[1..], id)
    else RemoveId(favs[1..], id)
  }

  /** Removes the item when its id is a favorite, appends it otherwise. */
  function Toggle(favs: seq<Gif>, gif: Gif): (r: seq<Gif>)
    // nothing but the toggled item is ever added
    ensures forall g :: g in r ==> g in favs || g == gif
    // every item with another id stays
    ensures forall g :: g in favs && g.id != gif.id ==> g in r
    // the list grows by one on an add and shrinks on a remove
    ensures |r| == |favs| + 1 || |r| < |favs|
  {
    if IsFavorite(favs, gif.id) then
      RemoveIdShorter(favs, gif.id);
      RemoveId(favs, gif.id)
    else favs + [gif]
  }

  /** Filtering works piece by piece, so the kept items stay in order. */
  lemma {:induction false} RemoveIdAppend(a: seq<Gif>, b: seq<Gif>, id: string)
    ensures RemoveId(a + b, id) == RemoveId(a, id) + RemoveId(b, id)
  {
    if a == [] {
      assert a + b == b;
    } else {
      assert (a + b)[0] == a[0];
      assert (a + b)[1..] == a[1..] + b;
      RemoveIdAppend(a[1..], b, id);
    }
  }

  /** Filtering out an id that is not there changes nothing. */
  lemma {:induction false} RemoveAbsentId(favs: seq<Gif>, id: string)
    requires !IsFavorite(favs, id)
    ensures RemoveId(favs, id) == favs
  {
    if favs != [] {
      assert favs[0].id != id;
      assert !IsFavorite(favs[1..], id) by {
        forall i | 0 <= i < |favs[1..]| ensures favs[1..][i].id != id {
          assert favs[1..][i] == favs[i + 1];
        }
      }
      RemoveAbsentId(favs[1..], id);
    }
  }

  /** Toggling flips the favorite state of the toggled id ... */
  lemma ToggleFlips(favs: seq<Gif>, gif: Gif)
    ensures IsFavorite(Toggle(favs, gif), gif.id) == !IsFavorite(favs, gif.id)
  {
    var r := Toggle(favs, gif);
    if !IsFavorite(favs, gif.id) {
      assert gif in r;
    }
  }

  /** ... and leaves the favorite state of every other id as it was. */
  lemma ToggleKeepsOthers(favs: seq<Gif>, gif: Gif, id: string)
    requires id != gif.id
    ensures IsFavorite(Toggle(favs, gif), id) == IsFavorite(favs, id)
  {
  }

  /** Adding appends at the end; removing drops exactly the items with that
      id and keeps the rest in order. */
  lemma ToggleShape(favs: seq<Gif>, gif: Gif)
    ensures !IsFavorite(favs, gif.id) ==> Toggle(favs, gif) == favs + [gif]
    ensures IsFavorite(favs, gif.id) ==>
              |Toggle(favs, gif)| < |favs|
              && forall g :: g in Toggle(favs, gif) <==> g in favs && g.id != gif.id
  {
    if IsFavorite(favs, gif.id) {
      var g :| g in favs && g.id == gif.id;
      RemoveIdShorter(favs, gif.id);
    }
  }

  lemma {:induction false} RemoveIdShorter(favs: seq<Gif>, id: string)
    requires IsFavorite(favs, id)
    ensures |RemoveId(favs, id)| < |favs|
  {
    if favs[0].id != id {
      var i :| 0 <= i < |favs| && favs[i].id == id;
      assert favs[1..][i - 1].id == id;
      RemoveIdShorter(favs[1..], id);
    }
  }

  /** Toggling an item that is not a favorite twice restores the list. */
  lemma ToggleTwiceRestores(favs: seq<Gif>, gif: Gif)
    requires !IsFavorite(favs, gif.id)
    ensures Toggle(Toggle(favs, gif), gif) == favs
  {
    ToggleFlips(favs, gif);
    RemoveIdAppend(favs, [gif], gif.id);
    RemoveAbsentId(favs, gif.id);
    assert RemoveId([gif], gif.id) == [];
  }

  /** Toggling a favorite twice does not restore the list: the item comes
      back at the end. */
  lemma ToggleTwiceReorders()
    ensures var g := Gif("g", "", map[]);
            var h := Gif("h", "", map[]);
            Toggle(Toggle([g, h], g), g) == [h, g]
  {
    var g := Gif("g", "", map[]);
    var h := Gif("h", "", map[]);
    assert [g, h][0].id == "g";
    assert Toggle([g, h], g) == [h];
    assert !IsFavorite([h], "g");
  }
}
