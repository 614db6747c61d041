/** The song entity as it crosses the service boundary. */
module Songs {

  datatype Option<+T> = None | Some(value: T)

  /** What a client may supply for a song, in a JSON body or in query
      parameters. The store-assigned `id` and `play_count` are never read
      from client input, so they have no place here. */
  datatype SongInput = SongInput(title: Option<string>, artist: Option<string>, genre: Option<string>)

  /** A row of the songs table as the store returns it. */
  datatype Song = Song(
    id: Option<int>,
    title: Option<string>,
    artist: Option<string>,
    genre: Option<string>,
    playCount: Option<int>)

  /** A JSON value as the deserialiser sees it: `null`, a string, or
      anything else (a number, a boolean, an array or an object). A query
      parameter is always a string. */
  datatype JsonValue = Null | Str(text: string) | Other

  /** The keys that become song fields. */
  const SongKeys: seq<string> := ["title", "artist", "genre"]

  /** The value sent under a song key cannot be read as an optional string. */
  predicate Unreadable(fields: map<string, JsonValue>, key: string)
  {
    key in fields && fields[key].Other?
  }

  /** The optional string a client sent under `key`: absent when the key is
      missing or the value is `null`. */
  function Lookup(fields: map<string, JsonValue>, key: string): Option<string>
  {
    if key in fields && fields[key].Str? then Some(fields[key].text) else None
  }

  /** Deserialisation of a client's key/value pairs into a SongInput, or
      `None` when it is rejected. Every song field is optional: a missing
      key and a `null` both leave it absent, and any other non-string value
      under a song key rejects the input. Values under `id`, `play_count`
      and unknown keys are read and dropped, whatever they are. */
  function FromFields(fields: map<string, JsonValue>): (r: Option<SongInput>)
    ensures r.None? <==> Unreadable(fields, "title") || Unreadable(fields, "artist") || Unreadable(fields, "genre")
    ensures r.Some? ==> (r.value.title.Some? <==> "title" in fields && fields["title"].Str?)
    ensures r.Some? ==> (r.value.artist.Some? <==> "artist" in fields && fields["artist"].Str?)
    ensures r.Some? ==> (r.value.genre.Some? <==> "genre" in fields && fields["genre"].Str?)
    ensures r.Some? && r.value.title.Some? ==> r.value.title.value == fields["title"].text
    ensures r.Some? && r.value.artist.Some? ==> r.value.artist.value == fields["artist"].text
    ensures r.Some? && r.value.genre.Some? ==> r.value.genre.value == fields["genre"].text
  {
    if Unreadable(fields, "title") || Unreadable(fields, "artist") || Unreadable(fields, "genre") then None
    else Some(SongInput(Lookup(fields, "title"), Lookup(fields, "artist"), Lookup(fields, "genre")))
  }

  /** Sending `null` for a song field has the same effect as leaving the
      key out. */
  lemma NullLikeMissing(fields: map<string, JsonValue>, key: string)
    requires key in SongKeys
    ensures FromFields(fields[key := Null]) == FromFields(fields - {key})
  {
    var sent := fields[key := Null];
    var kept := fields - {key};
    forall k | k in SongKeys
      ensures Lookup(sent, k) == Lookup(kept, k) && (Unreadable(sent, k) <==> Unreadable(kept, k))
    {
    }
  }

  /** Whatever value a client sends under a key that is not a song field,
      the store-assigned `id` and `play_count` included, it is accepted and
      has no effect on the deserialised input. */
  lemma OtherKeysIgnored(fields: map<string, JsonValue>, key: string, v: JsonValue)
    requires key !in SongKeys
    ensures FromFields(fields[key := v]) == FromFields(fields - {key})
  {
    var sent := fields[key := v];
    var kept := fields - {key};
    forall k | k in SongKeys
      ensures Lookup(sent, k) == Lookup(kept, k) && (Unreadable(sent, k) <==> Unreadable(kept, k))
    {
      assert k != key;
    }
  }

  /** A client sending back a song it received, `id` and `play_count`
      included, gets the same input as if it had sent only the song fields. */
  lemma StoreFieldsIgnored(fields: map<string, JsonValue>, id: JsonValue, playCount: JsonValue)
    ensures FromFields(fields["id" := id]["play_count" := playCount])
         == FromFields(fields - {"id", "play_count"})
  {
    var withId := fields["id" := id];
    OtherKeysIgnored(withId, "play_count", playCount);
    OtherKeysIgnored(fields - {"play_count"}, "id", id);
    assert withId - {"play_count"} == (fields - {"play_count"})["id" := id];
    assert (fields - {"play_count"}) - {"id"} == fields - {"id", "play_count"};
  }
}
