/**
 * The favorites store (Extensions/UserDefaultsFavorites.swift): one persisted list of
 * movies under a single key of the app's key-value storage. Every mutation reads the
 * whole list, changes it, and writes the whole list back. Identity is by movie id only.
 */
module Favorites {
  import opened Movies

  /**
   * The storage slot under the favorites key: nothing stored, a stored blob that does
   * not decode as a list of movies, or a stored list.
   */
  datatype Slot = Absent | Undecodable | Stored(movies: seq<Movie>)

  /** The list that reading the slot yields: missing or undecodable data reads as empty. */
  function Decoded(slot: Slot): seq<Movie>
  {
    if slot.Stored? then slot.movies else []
  }

  /** Some movie in the list has the given id. */
  predicate HasId(favs: seq<Movie>, id: int)
  {
    exists i :: 0 <= i < |favs| && favs[i].id == id
  }

  /** No two entries of the list share an id. */
  predicate UniqueIds(favs: seq<Movie>)
  {
    forall i, j :: 0 <= i < j < |favs| ==> favs[i].id != favs[j].id
  }

  /** `removeAll { $0.id == id }`: the list without every entry carrying the id, others in order. */
  function WithoutId(favs: seq<Movie>, id: int): (rest: seq<Movie>)
    ensures !HasId(rest, id)
    ensures forall m :: m in rest <==> m in favs && m.id != id
    ensures |rest| <= |favs|
  {
    if favs == [] then []
    else if favs[0].id == id then WithoutId(favs[1..], id)
    else [favs[0]] + WithoutId(favs[1..], id)
  }

  /** What `addToFavorites` stores: the list unchanged when the id is present, else the movie appended. */
  function WithFavorite(favs: seq<Movie>, m: Movie): (r: seq<Movie>)
    ensures HasId(r, m.id)
    ensures favs <= r && |r| <= |favs| + 1
    ensures HasId(favs, m.id) <==> r == favs
    ensures !HasId(favs, m.id) ==> r[|favs|] == m
    ensures forall id :: HasId(r, id) <==> HasId(favs, id) || id == m.id
  {
    if HasId(favs, m.id) then favs
    else
      assert (favs + [m])[|favs|] == m;
      favs + [m]
  }

  /** What `toggleFavorite` stores: remove the id when present, append the movie when absent. */
  function Toggled(favs: seq<Movie>, m: Movie): (r: seq<Movie>)
    ensures HasId(r, m.id) <==> !HasId(favs, m.id)
    ensures forall id :: id != m.id ==> (HasId(r, id) <==> HasId(favs, id))
  {
    if HasId(favs, m.id) then WithoutId(favs, m.id) else WithFavorite(favs, m)
  }

  /** Membership of an id in terms of the movies in the list. */
  lemma HasIdIn(favs: seq<Movie>, id: int)
    ensures HasId(favs, id) <==> exists m :: m in favs && m.id == id
  {
    if HasId(favs, id) {
      var i :| 0 <= i < |favs| && favs[i].id == id;
      assert favs[i] in favs;
    }
  }

  /** Removing an id that is not in the list leaves the list exactly as it was. */
  lemma {:induction false} WithoutAbsentId(favs: seq<Movie>, id: int)
    requires !HasId(favs, id)
    ensures WithoutId(favs, id) == favs
  {
    if favs != [] {
      assert favs[0].id != id;
      WithoutAbsentId(favs[1..], id);
      assert [favs[0]] + favs[1..] == favs;
    }
  }

  /** Removal works entry by entry, so the kept entries stay in their original order. */
  lemma {:induction false} WithoutIdAppend(a: seq<Movie>, b: seq<Movie>, id: int)
    ensures WithoutId(a + b, id) == WithoutId(a, id) + WithoutId(b, id)
  {
    if a == [] {
      assert a + b == b;
    } else {
      assert (a + b)[0] == a[0];
      assert (a + b)[1..] == a[1..] + b;
      WithoutIdAppend(a[1..], b, id);
    }
  }

  /** Removal keeps ids unique. */
  lemma {:induction false} WithoutIdKeepsUnique(favs: seq<Movie>, id: int)
    requires UniqueIds(favs)
    ensures UniqueIds(WithoutId(favs, id))
  {
    if favs != [] {
      var tail := favs[1..];
      assert UniqueIds(tail) by {
        forall i, j | 0 <= i < j < |tail| ensures tail[i].id != tail[j].id {
          assert tail[i] == favs[i + 1] && tail[j] == favs[j + 1];
        }
      }
      WithoutIdKeepsUnique(tail, id);
      if favs[0].id != id {
        var rest := WithoutId(tail, id);
        forall j | 0 <= j < |rest| ensures rest[j].id != favs[0].id {
          assert rest[j] in tail;
          var k :| 0 <= k < |tail| && tail[k] == rest[j];
          assert tail[k] == favs[k + 1];
        }
        assert WithoutId(favs, id) == [favs[0]] + rest;
      }
    }
  }

  /** Adding keeps ids unique. */
  lemma WithFavoriteKeepsUnique(favs: seq<Movie>, m: Movie)
    requires UniqueIds(favs)
    ensures UniqueIds(WithFavorite(favs, m))
  {
    if !HasId(favs, m.id) {
      var r := favs + [m];
      forall i, j | 0 <= i < j < |r| ensures r[i].id != r[j].id {
        if j == |favs| {
          assert r[i] == favs[i];
        }
      }
    }
  }

  /** Toggling keeps ids unique. */
  lemma ToggledKeepsUnique(favs: seq<Movie>, m: Movie)
    requires UniqueIds(favs)
    ensures UniqueIds(Toggled(favs, m))
  {
    if HasId(favs, m.id) {
      WithoutIdKeepsUnique(favs, m.id);
    } else {
      WithFavoriteKeepsUnique(favs, m);
    }
  }

  /** A second add of the same id changes nothing. */
  lemma AddIdempotent(favs: seq<Movie>, m: Movie, n: Movie)
    requires n.id == m.id
    ensures WithFavorite(WithFavorite(favs, m), n) == WithFavorite(favs, m)
  {
  }

  /** Toggling twice restores whether the movie is a favorite. */
  lemma ToggleTwiceRestoresMembership(favs: seq<Movie>, m: Movie)
    ensures HasId(Toggled(Toggled(favs, m), m), m.id) == HasId(favs, m.id)
  {
  }

  /** Toggling an absent movie twice restores the list exactly. */
  lemma ToggleTwiceAbsent(favs: seq<Movie>, m: Movie)
    requires !HasId(favs, m.id)
    ensures Toggled(Toggled(favs, m), m) == favs
  {
    WithoutIdAppend(favs, [m], m.id);
    WithoutAbsentId(favs, m.id);
    assert WithoutId([m], m.id) == [];
  }

  /** Toggling a present movie twice moves it to the end, stored as the toggled record. */
  lemma ToggleTwicePresent(favs: seq<Movie>, m: Movie)
    requires HasId(favs, m.id)
    ensures Toggled(Toggled(favs, m), m) == WithoutId(favs, m.id) + [m]
  {
  }

  /** So toggling twice need not restore the list: the first of two favorites becomes the last. */
  lemma ToggleTwiceReorders(a: Movie, b: Movie)
    requires a.id != b.id
    ensures Toggled(Toggled([a, b], a), a) == [b, a]
  {
    assert [a, b][0] == a;
    ToggleTwicePresent([a, b], a);
    assert [a, b][1..] == [b];
    assert WithoutId([b], a.id) == [b];
  }

  /**
   * The app's key-value storage, restricted to the favorites key. Encoding the list for
   * storage is library code; whether it succeeds is a parameter of each writing call.
   */
  class FavoritesStore {
    var slot: Slot

    constructor (initial: Slot)
      ensures slot == initial
    {
      slot := initial;
    }

    /** `getFavoriteMovies`: the stored list; missing or undecodable data yields the empty list. */
    method GetFavoriteMovies() returns (favs: seq<Movie>)
      ensures slot.Stored? ==> favs == slot.movies
      ensures slot.Absent? || slot.Undecodable? ==> favs == []
    {
      if slot.Stored? {
        favs := slot.movies;
      } else {
        favs := [];
      }
    }

    /** `saveFavoriteMovies`: writes the whole list; when encoding fails the previous data stays. */
    method SaveFavoriteMovies(movies: seq<Movie>, encoded: bool)
      modifies this
      ensures slot == if encoded then Stored(movies) else old(slot)
    {
      if !encoded {
        return;
      }
      slot := Stored(movies);
    }

    /** `isFavorite`: some stored movie has the same id; the other fields are not compared. */
    method IsFavorite(movie: Movie) returns (b: bool)
      ensures b <==> exists m :: m in Decoded(slot) && m.id == movie.id
    {
      var favorites := GetFavoriteMovies();
      b := HasId(favorites, movie.id);
      HasIdIn(favorites, movie.id);
    }

    /** `addToFavorites`: appends the movie unless its id is already stored. */
    method AddToFavorites(movie: Movie, encoded: bool)
      modifies this
      ensures HasId(old(Decoded(slot)), movie.id) || !encoded ==> slot == old(slot)
      ensures !HasId(old(Decoded(slot)), movie.id) && encoded ==> slot == Stored(old(Decoded(slot)) + [movie])
      ensures encoded ==> Decoded(slot) == WithFavorite(old(Decoded(slot)), movie)
    {
      var favorites := GetFavoriteMovies();
      if HasId(favorites, movie.id) {
        return;
      }
      favorites := favorites + [movie];
      SaveFavoriteMovies(favorites, encoded);
    }

    /** `removeFromFavorites`: stores the list without the movie's id, even when nothing was removed. */
    method RemoveFromFavorites(movie: Movie, encoded: bool)
      modifies this
      ensures slot == if encoded then Stored(WithoutId(old(Decoded(slot)), movie.id)) else old(slot)
      ensures encoded ==> !HasId(Decoded(slot), movie.id)
    {
      var favorites := GetFavoriteMovies();
      favorites := WithoutId(favorites, movie.id);
      SaveFavoriteMovies(favorites, encoded);
    }

    /** `toggleFavorite`: removes a favorite, adds a non-favorite. */
    method ToggleFavorite(movie: Movie, encoded: bool)
      modifies this
      ensures slot == if encoded then Stored(Toggled(old(Decoded(slot)), movie)) else old(slot)
      ensures encoded ==> (HasId(Decoded(slot), movie.id) <==> !HasId(old(Decoded(slot)), movie.id))
    {
      var b := IsFavorite(movie);
      HasIdIn(Decoded(slot), movie.id);
      if b {
        RemoveFromFavorites(movie, encoded);
      } else {
        AddToFavorites(movie, encoded);
      }
    }
  }

  /** Adding a movie to an empty store makes it a favorite; toggling it then leaves it not a favorite. */
  method AddToggleScenario(m: Movie)
  {
    var store := new FavoritesStore(Absent);
    store.AddToFavorites(m, true);
    assert store.slot == Stored([m]);
    var b := store.IsFavorite(m);
    assert m in [m];
    assert b;
    store.ToggleFavorite(m, true);
    assert WithoutId([m], m.id) == [];
    assert store.slot == Stored([]);
    b := store.IsFavorite(m);
    assert !b;
  }
}
