/** How the add, search and play handlers turn the store's answer into a
    response body. The store's answer is an input here: a row or none, or
    an error whose rendered message is all the handlers use. */
module Responses {
  import opened Songs

  /** A failure reported by the database layer, by its rendered message. */
  datatype DbError = DbError(message: string)

  datatype Result<+T> = Ok(value: T) | Err(error: DbError)

  /** A JSON response body: one song, an array of songs, a bare JSON string,
      or an object with a single `error` member. */
  datatype Body =
    | SongJson(song: Song)
    | SongsJson(songs: seq<Song>)
    | StringJson(text: string)
    | ErrorObject(error: string)

  const AddFailed: string := "Failed to add song"
  const AddFailedPrefix: string := "Failed to add song: "
  const SongNotFound: string := "Song not found"

  /** The add handler's body for the outcome of its INSERT ... RETURNING:
      the inserted row, a fixed message when no row came back, and the
      message with the database error appended when the statement failed. */
  function AddSongResponse(r: Result<Option<Song>>): (b: Body)
    ensures b.SongJson? <==> r.Ok? && r.value.Some?
    ensures b.SongJson? ==> b.song == r.value.value
    ensures r.Ok? && r.value.None? ==> b == StringJson(AddFailed)
    ensures r.Err? ==> && b.StringJson? && |b.text| >= |AddFailedPrefix|
                       && b.text[..|AddFailedPrefix|] == AddFailedPrefix
                       && b.text[|AddFailedPrefix|..] == r.error.message
  {
    match r
    case Ok(Some(s)) => SongJson(s)
    case Ok(None) => StringJson(AddFailed)
    case Err(e) =>
      var t := AddFailedPrefix + e.message;
      assert t[..|AddFailedPrefix|] == AddFailedPrefix && t[|AddFailedPrefix|..] == e.message;
      StringJson(t)
  }

  /** The add handler tells "no row returned" apart from every database
      error, and tells different errors apart. */
  lemma AddFailuresDistinct(e: DbError, e': DbError)
    ensures AddSongResponse(Ok(None)) != AddSongResponse(Err(e))
    ensures AddSongResponse(Err(e)) == AddSongResponse(Err(e')) ==> e == e'
  {
    assert |AddSongResponse(Ok(None)).text| < |AddSongResponse(Err(e)).text|;
    if AddSongResponse(Err(e)) == AddSongResponse(Err(e')) {
      var t := AddSongResponse(Err(e)).text;
      assert e.message == t[|AddFailedPrefix|..] == e'.message;
    }
  }

  /** The play handler's body for the outcome of its UPDATE ... RETURNING:
      the updated row, or the same not-found object whatever went wrong. */
  function PlaySongResponse(r: Result<Option<Song>>): (b: Body)
    ensures b.SongJson? <==> r.Ok? && r.value.Some?
    ensures b.SongJson? ==> b.song == r.value.value
    ensures !b.SongJson? ==> b == ErrorObject(SongNotFound)
  {
    match r
    case Ok(Some(s)) => SongJson(s)
    case Ok(None) => ErrorObject(SongNotFound)
    case Err(_) => ErrorObject(SongNotFound)
  }

  /** Unlike add, play reports a missing row and a database error with the
      same body, so a client cannot tell them apart. */
  lemma PlayFailuresCollapse(r: Result<Option<Song>>, r': Result<Option<Song>>)
    requires !(r.Ok? && r.value.Some?) && !(r'.Ok? && r'.value.Some?)
    ensures PlaySongResponse(r) == PlaySongResponse(r')
  {
  }

  /** Both handlers pass the returned row through unchanged, and succeed on
      exactly the same outcomes. */
  lemma AddPlayAgreeOnSuccess(r: Result<Option<Song>>)
    ensures AddSongResponse(r).SongJson? <==> PlaySongResponse(r).SongJson?
    ensures AddSongResponse(r).SongJson? ==> AddSongResponse(r) == PlaySongResponse(r)
  {
  }

  /** The search handler's body for the outcome of its SELECT: the rows in
      the order the store returned them, or on failure the same message the
      add handler uses for a database error. */
  function SearchSongResponse(r: Result<seq<Song>>): (b: Body)
    ensures r.Ok? <==> b.SongsJson?
    ensures r.Ok? ==> b.songs == r.value
    ensures r.Err? ==> b == AddSongResponse(Err(r.error))
  {
    match r
    case Ok(songs) => SongsJson(songs)
    case Err(e) => StringJson(AddFailedPrefix + e.message)
  }
}
