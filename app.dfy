/**
 * The state of the weather component and its event handlers: editing the
 * query, switching the query mode and the display unit, and submitting a
 * search. The network call is abstracted as the Outcome it produces.
 */
module App {
  import opened Wrappers
  import opened JsString
  import opened Capitalize

  /** The query mode, sent as the `type` request parameter. */
  datatype SearchType = City | Zip {
    function Param(): (p: string)
      ensures p == "city" <==> this == City
      ensures p == "zip" <==> this == Zip
    {
      match this
      case City => "city"
      case Zip => "zip"
    }
  }

  datatype Temperatures = Temperatures(current: real, feelsLike: real, min: real, max: real)

  /** The JSON body of a successful response, stored as it arrives. */
  datatype Report = Report(
    locationName: string,
    main: string,
    description: string,
    icon: string,
    temperature: Temperatures,
    humidity: real,
    windSpeed: real)

  /** What a search request produces: a parsed OK body, a parsed error body, or an exception. */
  datatype Outcome =
    | Ok(data: Report)
    | NotOk(errorField: Option<string>)
    | Threw

  /** The two query parameters of the one GET request a submission issues: `location` and `type`. */
  datatype Request = Request(location: string, typeParam: string)

  const FetchFailedMessage: string := "Failed to fetch weather data"
  const ConnectFailedMessage: string := "Failed to connect to weather service"

  /**
   * `data.error || 'Failed to fetch weather data'`: the body's error field when
   * it is a non-empty string, the fallback otherwise. Never empty, so the error
   * banner always shows after a failure.
   */
  function ErrorText(errorField: Option<string>): (m: string)
    ensures |m| > 0
    ensures errorField.Some? && errorField.value != "" ==> m == errorField.value
    ensures errorField.None? || errorField.value == "" ==> m == FetchFailedMessage
  {
    match errorField
    case Some(e) => if e != "" then e else FetchFailedMessage
    case None => FetchFailedMessage
  }

  class WeatherApp {
    var location: string
    var searchType: SearchType
    var weather: Option<Report>
    var loading: bool
    var error: Option<string>
    var isCelsius: bool

    /** The initial `useState` values. */
    constructor ()
      ensures location == "" && searchType == City && weather == None
      ensures !loading && error == None && isCelsius
    {
      location := "";
      searchType := City;
      weather := None;
      loading := false;
      error := None;
      isCelsius := true;
    }

    /** `handleInputChange`: store the typed value, capitalized in city mode and verbatim in ZIP mode. */
    method InputChange(value: string)
      modifies this`location
      ensures searchType == City ==> location == CapitalizeWords(value)
      ensures searchType == Zip ==> location == value
      ensures |location| == |value|
    {
      if searchType == City {
        location := CapitalizeWords(value);
        CapitalizeWordsPointwise(value);
      } else {
        location := value;
      }
    }

    /** The unit toggle: flip `isCelsius`, nothing else. */
    method ToggleUnit()
      modifies this`isCelsius
      ensures isCelsius == !old(isCelsius)
    {
      isCelsius := !isCelsius;
    }

    /** The two mode buttons: set `searchType`; the stored location is not re-normalised. */
    method SelectSearchType(t: SearchType)
      modifies this`searchType
      ensures searchType == t
    {
      searchType := t;
    }

    /**
     * `handleSearch` up to its `await`: a location that `trim` empties (one that
     * is all white space) is a no-op that issues
     * no request; otherwise loading starts, the error clears, the previous
     * weather stays, and the request for the current location and mode is issued.
     */
    method BeginSearch() returns (request: Option<Request>)
      modifies this`loading, this`error
      ensures IsBlank(location) ==> request == None && loading == old(loading) && error == old(error)
      ensures !IsBlank(location) ==> request == Some(Request(location, searchType.Param())) && loading && error == None
    {
      if Trim(location) == "" {
        return None;
      }
      loading := true;
      error := None;
      request := Some(Request(location, searchType.Param()));
    }

    /**
     * `handleSearch` after its `await`: an OK body becomes the weather, a
     * failure sets the error message and keeps the previous weather, and
     * loading always ends.
     */
    method CompleteSearch(outcome: Outcome)
      modifies this`weather, this`error, this`loading
      ensures !loading
      ensures outcome.Ok? ==> weather == Some(outcome.data) && error == old(error)
      ensures outcome.NotOk? ==> weather == old(weather) && error == Some(ErrorText(outcome.errorField))
      ensures outcome.Threw? ==> weather == old(weather) && error == Some(ConnectFailedMessage)
    {
      match outcome {
        case Ok(data) =>
          weather := Some(data);
        case NotOk(errorField) =>
          error := Some(ErrorText(errorField));
        case Threw =>
          error := Some(ConnectFailedMessage);
      }
      loading := false;
    }

    /** `handleSearch` from submission to completion, with the request's outcome given. */
    method Search(outcome: Outcome) returns (request: Option<Request>)
      modifies this`weather, this`error, this`loading
      ensures IsBlank(location) ==> request == None && unchanged(this)
      ensures !IsBlank(location) ==> request == Some(Request(location, searchType.Param())) && !loading
      ensures !IsBlank(location) && outcome.Ok? ==> weather == Some(outcome.data) && error == None
      ensures !IsBlank(location) && outcome.NotOk? ==>
        weather == old(weather) && error == Some(ErrorText(outcome.errorField))
      ensures !IsBlank(location) && outcome.Threw? ==>
        weather == old(weather) && error == Some(ConnectFailedMessage)
    {
      request := BeginSearch();
      if request.Some? {
        CompleteSearch(outcome);
      }
    }
  }

  /**
   * Normalising a city name never changes whether it would be submitted: it
   * rewrites ASCII letters only, and no white space is an ASCII letter.
   */
  lemma CapitalizeWordsKeepsBlankness(s: string)
    ensures IsBlank(CapitalizeWords(s)) <==> IsBlank(s)
  {
    var r := CapitalizeWords(s);
    CapitalizeWordsPointwise(s);
    forall i | 0 <= i < |s| ensures IsWhiteSpace(r[i]) <==> IsWhiteSpace(s[i]) {
      CaseMappingKeepsWhiteSpace(s[i]);
    }
  }

  /**
   * A session: a city name is typed and stored normalised; a successful search
   * stores its report; a failing search after it shows the server's message and
   * leaves the earlier report in place; switching to ZIP mode keeps the stored
   * text; a blank ZIP query then does nothing.
   */
  method SearchSession(typed: string, report: Report, message: string, blank: string)
    requires !IsBlank(typed) && IsBlank(blank)
    requires message != ""
  {
    var app := new WeatherApp();
    app.InputChange(typed);
    var city := app.location;
    assert city == CapitalizeWords(typed);
    CapitalizeWordsKeepsBlankness(typed);
    var request := app.Search(Ok(report));
    assert request == Some(Request(city, "city"));
    assert app.weather == Some(report) && app.error == None && !app.loading;

    request := app.Search(NotOk(Some(message)));
    assert app.weather == Some(report) && app.error == Some(message) && !app.loading;

    app.SelectSearchType(Zip);
    assert app.location == city;
    app.InputChange(blank);
    assert app.location == blank;
    request := app.Search(Threw);
    assert request == None && app.error == Some(message) && app.weather == Some(report);
  }
}
