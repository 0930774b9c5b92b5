/** The like store: item id to "liked" flag, as the screen's `likes` record holds it. */
module Likes {

  /** `likes[id]` read for its truthiness: an absent key reads as false. */
  function Liked(likes: map<int, bool>, id: int): bool
  {
    id in likes && likes[id]
  }

  /** `toggleLike(id)`: `{ ...prev, [id]: !prev[id] }`. */
  function Toggle(likes: map<int, bool>, id: int): (r: map<int, bool>)
    ensures r.Keys == likes.Keys + {id}
    ensures Liked(r, id) == !Liked(likes, id)
    ensures forall k :: k in likes && k != id ==> r[k] == likes[k]
  {
    likes[id := !Liked(likes, id)]
  }

  /** Toggling twice restores the flag; the key is then present, holding the old truthiness. */
  lemma ToggleTwice(likes: map<int, bool>, id: int)
    ensures Liked(Toggle(Toggle(likes, id), id), id) == Liked(likes, id)
    ensures Toggle(Toggle(likes, id), id) == likes[id := Liked(likes, id)]
  {
  }

  /** Toggles of different items do not interfere. */
  lemma TogglesCommute(likes: map<int, bool>, a: int, b: int)
    ensures Toggle(Toggle(likes, a), b) == Toggle(Toggle(likes, b), a)
  {
  }
}
