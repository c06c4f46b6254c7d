/** `Settings.cors_origins_list` (app/libs/config.py): the CORS_ORIGINS
    setting split on commas, each field stripped of surrounding
    whitespace. */
module Config {
  import opened Text

  /** The default of the CORS_ORIGINS setting. */
  const DefaultCorsOrigins: string := "http://localhost:5173,http://localhost:3000"

  /** `[origin.strip() for origin in CORS_ORIGINS.split(",")]`. */
  function CorsOriginsList(corsOrigins: string): seq<string> {
    var fields := Split(corsOrigins, ',');
    seq(|fields|, i requires 0 <= i < |fields| => Strip(fields[i]))
  }

  /** One origin per comma-separated field, each a comma-free string with no
      surrounding whitespace. */
  lemma OriginsShape(corsOrigins: string)
    ensures |CorsOriginsList(corsOrigins)| == Count(corsOrigins, ',') + 1
    ensures forall i :: 0 <= i < |CorsOriginsList(corsOrigins)| ==>
              Trimmed(CorsOriginsList(corsOrigins)[i]) && ',' !in CorsOriginsList(corsOrigins)[i]
  {
    SplitFields(corsOrigins, ',');
    var fields := Split(corsOrigins, ',');
    forall i | 0 <= i < |fields|
      ensures Trimmed(Strip(fields[i])) && ',' !in Strip(fields[i])
    {
      var a, b := StripIsTrimmedInfix(fields[i]);
      assert forall c :: c in fields[i][a..b] ==> c in fields[i];
    }
  }

  /** When no field has surrounding whitespace, the origins are the fields
      in their order, and joining them with "," gives back the setting. */
  lemma OriginsRoundTrip(corsOrigins: string)
    requires forall i :: 0 <= i < |Split(corsOrigins, ',')| ==> Trimmed(Split(corsOrigins, ',')[i])
    ensures CorsOriginsList(corsOrigins) == Split(corsOrigins, ',')
    ensures Join(CorsOriginsList(corsOrigins), ',') == corsOrigins
  {
    var fields := Split(corsOrigins, ',');
    forall i | 0 <= i < |fields|
      ensures Strip(fields[i]) == fields[i]
    {
      StripTrimmed(fields[i]);
    }
    JoinSplit(corsOrigins, ',');
  }

  /** Two comma-free, whitespace-free origins joined by a comma. */
  lemma TwoOrigins(first: string, second: string)
    requires ',' !in first && ',' !in second
    requires Trimmed(first) && Trimmed(second)
    ensures CorsOriginsList(first + [','] + second) == [first, second]
  {
    var parts := [first, second];
    assert parts[1..] == [second];
    assert Join(parts, ',') == first + [','] + second;
    SplitJoin(parts, ',');
    var origins := CorsOriginsList(first + [','] + second);
    assert |origins| == 2;
    StripTrimmed(first);
    StripTrimmed(second);
    assert origins[0] == first && origins[1] == second;
  }

  /** The default setting yields the two local development origins. */
  lemma DefaultOrigins()
    ensures CorsOriginsList(DefaultCorsOrigins) == ["http://localhost:5173", "http://localhost:3000"]
  {
    var first, second := "http://localhost:5173", "http://localhost:3000";
    assert DefaultCorsOrigins == first + [','] + second;
    TwoOrigins(first, second);
  }

  /** An empty setting yields a single empty origin. */
  lemma EmptyOrigins()
    ensures CorsOriginsList("") == [""]
  {
  }
}
