/**
  The playlist rotation of `MusicPlayer` in js/main.js: the index of the
  current playlist moves forward or backward around a fixed list, and only
  when a Spotify access token is present.
 */
module Playlists {
  import opened Options

  datatype Playlist = Playlist(title: string, id: string)

  /** The four playlists the player is built with. */
  const DefaultPlaylists: seq<Playlist> := [
    Playlist("Workout Motivation", "37i9dQZF1DX5csH3Qm8KGX"),
    Playlist("Coding Focus", "37i9dQZF1DX5trt9i14X7j"),
    Playlist("Programming Zone", "37i9dQZF1DWZZbwlv3Vmtr"),
    Playlist("Gym Beats", "37i9dQZF1DX76t638V6CA8")
  ]

  /**
    `(i + 1) % n`. The operand is never negative here, so JavaScript's
    truncating `%` and Dafny's agree.
   */
  function NextIndex(i: int, n: int): (r: int)
    requires 0 <= i < n
    ensures 0 <= r < n
    ensures r == if i == n - 1 then 0 else i + 1
  {
    (i + 1) % n
  }

  /** `(i - 1 + n) % n`; adding `n` first keeps the operand non-negative. */
  function PrevIndex(i: int, n: int): (r: int)
    requires 0 <= i < n
    ensures 0 <= r < n
    ensures r == if i == 0 then n - 1 else i - 1
  {
    (i - 1 + n) % n
  }

  /** Going back undoes going forward, and the other way round. */
  lemma PrevUndoesNext(i: int, n: int)
    requires 0 <= i < n
    ensures PrevIndex(NextIndex(i, n), n) == i
    ensures NextIndex(PrevIndex(i, n), n) == i
  {
  }

  /** The index after `k` presses of "next". */
  function Advance(i: int, n: int, k: nat): (r: int)
    requires 0 <= i < n
    ensures 0 <= r < n
  {
    if k == 0 then i else NextIndex(Advance(i, n, k - 1), n)
  }

  /** Euclidean division has exactly one quotient and remainder. */
  lemma DivModUnique(x: int, n: int, q: int, r: int)
    requires n > 0 && 0 <= r < n && x == q * n + r
    ensures x % n == r
  {
    var d := q - x / n;
    assert d * n == x % n - r;
  }

  lemma ModSucc(x: nat, n: int)
    requires n > 0
    ensures (x % n + 1) % n == (x + 1) % n
  {
    var q, r := x / n, x % n;
    if r + 1 < n {
      DivModUnique(r + 1, n, 0, r + 1);
      DivModUnique(x + 1, n, q, r + 1);
    } else {
      DivModUnique(r + 1, n, 1, 0);
      DivModUnique(x + 1, n, q + 1, 0);
    }
  }

  /** `k` presses of "next" move the index `k` places around the list. */
  lemma {:induction false} AdvanceIsModular(i: int, n: int, k: nat)
    requires 0 <= i < n
    ensures Advance(i, n, k) == (i + k) % n
  {
    if k > 0 {
      AdvanceIsModular(i, n, k - 1);
      ModSucc(i + k - 1, n);
    }
  }

  /** Pressing "next" once per playlist comes back to where it started. */
  lemma FullCycle(i: int, n: int)
    requires 0 <= i < n
    ensures Advance(i, n, n) == i
    ensures forall k :: 0 < k < n ==> Advance(i, n, k) != i
  {
    AdvanceIsModular(i, n, n);
    DivModUnique(i + n, n, 1, i);
    forall k | 0 < k < n
      ensures Advance(i, n, k) != i
    {
      AdvanceIsModular(i, n, k);
      if i + k < n {
        DivModUnique(i + k, n, 0, i + k);
      } else {
        DivModUnique(i + k, n, 1, i + k - n);
      }
    }
  }

  /** `!this.token`: both `null` and an empty access token count as absent. */
  predicate HasToken(token: Option<string>): (present: bool)
    ensures present ==> token.Some?
    ensures token == None ==> !present
    ensures token == Some("") ==> !present
    ensures forall t :: token == Some(t) && t != "" ==> present
  {
    token.Some? && token.value != ""
  }

  class MusicPlayer {
    const playlists: seq<Playlist>
    var currentPlaylistIndex: int
    /** The Spotify access token found after the login redirect, if any. */
    var token: Option<string>
    /** The text of the song-title element. */
    var songTitle: string

    ghost predicate Valid()
      reads this
    {
      |playlists| > 0 && 0 <= currentPlaylistIndex < |playlists|
    }

    constructor (token: Option<string>)
      ensures Valid()
      ensures playlists == DefaultPlaylists && currentPlaylistIndex == 0
      ensures this.token == token && songTitle == "Connecting to Spotify..."
    {
      playlists := DefaultPlaylists;
      currentPlaylistIndex := 0;
      this.token := token;
      songTitle := "Connecting to Spotify...";
    }

    /** Moves to the following playlist, wrapping to the first, and shows its title. */
    method NextPlaylist()
      requires Valid()
      modifies this
      ensures Valid() && token == old(token)
      ensures HasToken(token) ==>
        currentPlaylistIndex == NextIndex(old(currentPlaylistIndex), |playlists|)
        && songTitle == playlists[currentPlaylistIndex].title
      ensures !HasToken(token) ==>
        currentPlaylistIndex == old(currentPlaylistIndex) && songTitle == old(songTitle)
    {
      if !HasToken(token) {
        return;
      }
      currentPlaylistIndex := (currentPlaylistIndex + 1) % |playlists|;
      songTitle := playlists[currentPlaylistIndex].title;
    }

    /** Moves to the preceding playlist, wrapping to the last, and shows its title. */
    method PrevPlaylist()
      requires Valid()
      modifies this
      ensures Valid() && token == old(token)
      ensures HasToken(token) ==>
        currentPlaylistIndex == PrevIndex(old(currentPlaylistIndex), |playlists|)
        && songTitle == playlists[currentPlaylistIndex].title
      ensures !HasToken(token) ==>
        currentPlaylistIndex == old(currentPlaylistIndex) && songTitle == old(songTitle)
    {
      if !HasToken(token) {
        return;
      }
      currentPlaylistIndex := (currentPlaylistIndex - 1 + |playlists|) % |playlists|;
      songTitle := playlists[currentPlaylistIndex].title;
    }
  }
}
