/**
 * The parsed command line: the checks run before anything is generated,
 * and the optional spawn point and bounding box read from it.
 */
module ParsedArgs {
  import opened Wrappers

  /** The options the checks look at; a missing option is `None` (`null`). */
  datatype Args = Args(
    saveGame: Option<string>,
    imageFilePath: Option<string>,
    gisBounds: Option<seq<real>>,
    spawnPoint: Option<seq<real>>)

  const VALID_GIS_BOUND_COUNTS: seq<int> := [0, 4]
  const VALID_SPAWN_POINT_COUNTS: seq<int> := [0, 2]
  const GIS_BOUNDS_MESSAGE := "Gis Bound box needs exactly 0 or 4 values"
  const SPAWN_POINT_MESSAGE := "Player position needs exactly 0 or 2 values"
  const MISSING_OUTPUT_MESSAGE := "ERROR: CDDA save game name or image filepath must be provided."

  /**
   * A reported error: either an array option with the wrong number of
   * values (its message, the count and the values, which the source prints
   * after the message), or a plain line.
   */
  datatype ErrorMessage = CountError(mainErrorMessage: string, valueCount: nat, values: seq<real>) | Line(text: string)

  /**
   * `CheckArrayValueCount`: a missing array passes when 0 is an allowed
   * count; a present one passes when its length is allowed, and otherwise
   * appends one message and fails.
   */
  method CheckArrayValueCount(errorMessages: seq<ErrorMessage>, validValuesCounts: seq<int>,
                              arrayValues: Option<seq<real>>, mainErrorMessage: string)
      returns (ok: bool, messages: seq<ErrorMessage>)
    ensures ok <==> (arrayValues.None? && 0 in validValuesCounts) || (arrayValues.Some? && |arrayValues.value| in validValuesCounts)
    ensures ok || arrayValues.None? ==> messages == errorMessages
    ensures !ok && arrayValues.Some? ==> messages == errorMessages + [CountError(mainErrorMessage, |arrayValues.value|, arrayValues.value)]
  {
    messages := errorMessages;
    if arrayValues.None? {
      return 0 in validValuesCounts, messages;
    }
    var valuesCount := |arrayValues.value|;
    if valuesCount in validValuesCounts {
      return true, messages;
    }
    messages := messages + [CountError(mainErrorMessage, valuesCount, arrayValues.value)];
    return false, messages;
  }

  /** `string.IsNullOrEmpty(SaveGame + ImageFilePath)`: `null` concatenates as the empty string. */
  predicate NoOutputGiven(args: Args)
  {
    (if args.saveGame.Some? then args.saveGame.value else "") + (if args.imageFilePath.Some? then args.imageFilePath.value else "") == ""
  }

  /** A length the bounding box may have, a missing box included. */
  predicate BoundsCountOk(a: Option<seq<real>>)
  {
    a.None? || |a.value| == 0 || |a.value| == 4
  }

  /** A length the spawn point may have, a missing point included. */
  predicate SpawnCountOk(a: Option<seq<real>>)
  {
    a.None? || |a.value| == 0 || |a.value| == 2
  }

  /** Both arrays have an allowed length, and a save game or an image path is given. */
  predicate IsValid(args: Args)
  {
    BoundsCountOk(args.gisBounds) && SpawnCountOk(args.spawnPoint) && !NoOutputGiven(args)
  }

  /** The message a failed count check prints, if any. */
  function CountMessage(ok: bool, mainErrorMessage: string, a: Option<seq<real>>): seq<ErrorMessage>
  {
    if ok || a.None? then [] else [CountError(mainErrorMessage, |a.value|, a.value)]
  }

  /**
   * `Validate`: both array checks always run, then the output check; the
   * arguments are valid exactly when all three pass, and each failed check
   * prints one message, in that order.
   */
  method Validate(args: Args) returns (isValid: bool, errorMessages: seq<ErrorMessage>)
    ensures isValid <==> IsValid(args)
    ensures isValid <==> errorMessages == []
    ensures errorMessages ==
      CountMessage(BoundsCountOk(args.gisBounds), GIS_BOUNDS_MESSAGE, args.gisBounds)
      + CountMessage(SpawnCountOk(args.spawnPoint), SPAWN_POINT_MESSAGE, args.spawnPoint)
      + (if NoOutputGiven(args) then [Line(MISSING_OUTPUT_MESSAGE)] else [])
  {
    isValid := true;
    errorMessages := [];
    var ok;
    ok, errorMessages := CheckArrayValueCount(errorMessages, VALID_GIS_BOUND_COUNTS, args.gisBounds, GIS_BOUNDS_MESSAGE);
    isValid := isValid && ok;
    ok, errorMessages := CheckArrayValueCount(errorMessages, VALID_SPAWN_POINT_COUNTS, args.spawnPoint, SPAWN_POINT_MESSAGE);
    isValid := isValid && ok;
    if NoOutputGiven(args) {
      errorMessages := errorMessages + [Line(MISSING_OUTPUT_MESSAGE)];
      isValid := false;
    }
  }

  datatype PointFloat = PointFloat(x: real, y: real)

  /** `GetSpawnPoint`: the point when exactly two values were given, none otherwise. */
  function GetSpawnPoint(args: Args): (p: Option<PointFloat>)
    ensures p.Some? <==> args.spawnPoint.Some? && |args.spawnPoint.value| == 2
    ensures p.Some? ==> p.value == PointFloat(args.spawnPoint.value[0], args.spawnPoint.value[1])
  {
    if args.spawnPoint.Some? && |args.spawnPoint.value| == 2
    then Some(PointFloat(args.spawnPoint.value[0], args.spawnPoint.value[1]))
    else None
  }

  datatype Bounds = Bounds(minLatitude: real, minLongitude: real, maxLatitude: real, maxLongitude: real)

  /** Reading past the end of an arrayValues. */
  datatype IndexOutOfRange = IndexOutOfRange

  /**
   * `GetBounds` as written: no box gives none; otherwise the first four
   * values are read in the order min latitude, min longitude, max latitude,
   * max longitude, and a shorter arrayValues raises.
   */
  function GetBounds(args: Args): (r: Result<Option<Bounds>, IndexOutOfRange>)
    ensures r == Ok(None) <==> args.gisBounds.None?
    ensures r.Err? <==> args.gisBounds.Some? && |args.gisBounds.value| < 4
    ensures r.Ok? && r.value.Some? ==> var b := args.gisBounds.value;
      r.value.value == Bounds(b[0], b[1], b[2], b[3])
  {
    if args.gisBounds.None? then Ok(None)
    else if |args.gisBounds.value| < 4 then Err(IndexOutOfRange)
    else
      var b := args.gisBounds.value;
      Ok(Some(Bounds(b[0], b[1], b[2], b[3])))
  }

  /**
   * `Validate` accepts a bounding box given with no values, and `GetBounds`
   * then reads past its end.
   */
  lemma ValidatedEmptyBoundsRaise()
    ensures var args := Args(Some("world"), None, Some([]), None);
      IsValid(args) && GetBounds(args).Err?
  {
    assert !NoOutputGiven(Args(Some("world"), None, Some([]), None));
  }

  /** `GetBounds` as the count check means it: an empty box is no box. */
  function GetBoundsIntended(args: Args): (r: Result<Option<Bounds>, IndexOutOfRange>)
  {
    if args.gisBounds.None? || |args.gisBounds.value| == 0 then Ok(None) else GetBounds(args)
  }

  /** After a successful `Validate`, reading the box never raises, and it agrees with `GetBounds` on any non-empty box. */
  lemma ValidatedBoundsAreReadable(args: Args)
    requires IsValid(args)
    ensures GetBoundsIntended(args).Ok?
    ensures GetBoundsIntended(args).value.Some? <==> args.gisBounds.Some? && |args.gisBounds.value| == 4
    ensures args.gisBounds.Some? && |args.gisBounds.value| > 0 ==> GetBoundsIntended(args) == GetBounds(args)
  {
  }
}
