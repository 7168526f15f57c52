/**
 * The four collections of the music-streaming database the reports read:
 * `streams`, `users`, `songs` and `artists`. Each document becomes a typed
 * record; identifiers and dates are integers (only equality on identifiers
 * and the order on dates matter to the reports).
 */
module Documents {

  /** A document identifier (`_id` and the foreign keys that refer to it). */
  type Id = int

  /** A point in time; the reports only compare dates. */
  type Date = int

  /** One play of a song by a user (collection `streams`). */
  datatype Stream = Stream(date: Date, user_id: Id, song_id: Id, artist_id: Id, seconds_played: nat)

  /** A subscriber (collection `users`); `id` is the document's `_id`. */
  datatype User = User(id: Id, username: string, email: string, subscription: string, country: string, birth_date: Date)

  /** A track (collection `songs`), with the artist's display name copied in. */
  datatype Song = Song(id: Id, title: string, artist_name: string, genre: string)

  /** A performer (collection `artists`). */
  datatype Artist = Artist(id: Id, name: string)

  /** The `$match` predicate `date >= cutoff` on streams. */
  function PlayedSince(cutoff: Date): Stream -> bool
  {
    (st: Stream) => st.date >= cutoff
  }

  function StreamUser(st: Stream): Id { st.user_id }
  function StreamSong(st: Stream): Id { st.song_id }
  function StreamArtist(st: Stream): Id { st.artist_id }
  function Seconds(st: Stream): nat { st.seconds_played }
  function UserKey(u: User): Id { u.id }
  function SongKey(s: Song): Id { s.id }
  function ArtistKey(a: Artist): Id { a.id }
}
