/**
 * The weather exporter: three gauges in a metrics registry (temperature and
 * wind speed labelled by city and country, and an unlabelled API status),
 * updated by one poll of the upstream weather service at a time, in a loop
 * that runs until the process ends.
 *
 * The HTTP request, its JSON decoding and the sleep between polls are
 * abstracted: each poll is given the upstream `Response` it received.
 * Gauge values, floats in the source, are reals.
 */
module WeatherExporter {

  import opened Wrappers

  /** The label values of a labelled gauge's child series. */
  datatype Labels = Labels(city: string, country: string)

  /** The only label set the exporter writes. */
  const Astana := Labels("Astana", "Kazakhstan")

  /** One series of the registry. */
  datatype Series = Temperature(labels: Labels) | WindSpeed(labels: Labels) | ApiStatus

  /**
   * One registry operation. `Touch` is `gauge.labels(...)`, which creates the
   * child series with value 0 if it does not exist yet; `Set` is `.set(v)`.
   */
  datatype Write = Touch(series: Series) | Set(series: Series, value: real)

  /** The values a scrape of the registry sees. */
  datatype Gauges = Gauges(temperature: map<Labels, real>, windSpeed: map<Labels, real>, apiStatus: real)

  /** The registry at process start: no labelled child yet, status 0. */
  const Initial := Gauges(map[], map[], 0.0)

  function Apply(g: Gauges, w: Write): Gauges {
    match w
    case Touch(Temperature(l)) =>
      if l in g.temperature then g else g.(temperature := g.temperature[l := 0.0])
    case Touch(WindSpeed(l)) =>
      if l in g.windSpeed then g else g.(windSpeed := g.windSpeed[l := 0.0])
    case Touch(ApiStatus) => g
    case Set(Temperature(l), v) => g.(temperature := g.temperature[l := v])
    case Set(WindSpeed(l), v) => g.(windSpeed := g.windSpeed[l := v])
    case Set(ApiStatus, v) => g.(apiStatus := v)
  }

  /** The registry after the writes `ws`, performed in order. */
  function ApplyAll(g: Gauges, ws: seq<Write>): Gauges
    decreases ws
  {
    if ws == [] then g else ApplyAll(Apply(g, ws[0]), ws[1..])
  }

  /** Performing `a` and then `b` is performing `a + b`. */
  lemma {:induction false} ApplyAllAppend(g: Gauges, a: seq<Write>, b: seq<Write>)
    ensures ApplyAll(g, a + b) == ApplyAll(ApplyAll(g, a), b)
    decreases a
  {
    if a == [] {
      assert a + b == b;
    } else {
      assert (a + b)[0] == a[0] && (a + b)[1..] == a[1..] + b;
      ApplyAllAppend(Apply(g, a[0]), a[1..], b);
    }
  }

  /** The state after the first i + 1 writes is one write past the state after the first i. */
  lemma ApplyAllSnoc(g: Gauges, ws: seq<Write>, i: nat)
    requires i < |ws|
    ensures ApplyAll(g, ws[..i + 1]) == Apply(ApplyAll(g, ws[..i]), ws[i])
  {
    assert ws[..i + 1] == ws[..i] + [ws[i]];
    ApplyAllAppend(g, ws[..i], [ws[i]]);
    assert [ws[i]][1..] == [];
  }

  // ---------------------------------------------------------------------
  // One poll (`fetch_weather_data`)
  // ---------------------------------------------------------------------

  /** The `current_weather` object of a response body; either key may be absent. */
  datatype CurrentWeather = CurrentWeather(temperature: Option<real>, windSpeed: Option<real>)

  /**
   * What one request to the weather service yields. `RequestFailed` stands for
   * every `requests.exceptions.RequestException`: a transport error, the
   * 10-second timeout, a 4xx or 5xx status raised by `raise_for_status`, and a
   * body that is not JSON. `Decoded` is a decoded body, with or without its
   * `current_weather` key.
   */
  datatype Response = RequestFailed | Decoded(current: Option<CurrentWeather>)

  /** How one call of `fetch_weather_data` ends: it returns a flag, or a `KeyError` escapes it. */
  datatype PollResult = Returned(up: bool) | KeyErrorRaised

  /** The registry operations one poll performs, in order, and how it ends. */
  datatype PollEffect = PollEffect(writes: seq<Write>, result: PollResult)

  function Poll(r: Response): PollEffect {
    match r
    case RequestFailed => PollEffect([Set(ApiStatus, 0.0)], Returned(false))
    case Decoded(None) => PollEffect([], KeyErrorRaised)
    case Decoded(Some(CurrentWeather(None, _))) =>
      PollEffect([Touch(Temperature(Astana))], KeyErrorRaised)
    case Decoded(Some(CurrentWeather(Some(t), None))) =>
      PollEffect([Touch(Temperature(Astana)), Set(Temperature(Astana), t), Touch(WindSpeed(Astana))],
                 KeyErrorRaised)
    case Decoded(Some(CurrentWeather(Some(t), Some(w)))) =>
      PollEffect([Touch(Temperature(Astana)), Set(Temperature(Astana), t),
                  Touch(WindSpeed(Astana)), Set(WindSpeed(Astana), w),
                  Set(ApiStatus, 1.0)],
                 Returned(true))
  }

  /** The registry after one poll that received `r`. */
  function AfterPoll(g: Gauges, r: Response): Gauges {
    ApplyAll(g, Poll(r).writes)
  }

  /** The response of a successful request carrying both readings. */
  function Reading(t: real, w: real): Response {
    Decoded(Some(CurrentWeather(Some(t), Some(w))))
  }

  /**
   * On success the Astana gauges hold exactly the reported temperature and
   * wind speed, the status is 1, the poll returns True, and no other label
   * set changes.
   */
  lemma SuccessPublishesReadings(g: Gauges, t: real, w: real)
    ensures Poll(Reading(t, w)).result == Returned(true)
    ensures AfterPoll(g, Reading(t, w)) ==
            Gauges(g.temperature[Astana := t], g.windSpeed[Astana := w], 1.0)
  {
    var temp := [Touch(Temperature(Astana)), Set(Temperature(Astana), t)];
    var wind := [Touch(WindSpeed(Astana)), Set(WindSpeed(Astana), w)];
    var status := [Set(ApiStatus, 1.0)];
    assert Poll(Reading(t, w)).writes == temp + wind + status;
    ApplyAllAppend(g, temp + wind, status);
    ApplyAllAppend(g, temp, wind);
    TouchThenSet(g, Temperature(Astana), t);
    var g2 := ApplyAll(g, temp);
    TouchThenSet(g2, WindSpeed(Astana), w);
    assert ApplyAll(ApplyAll(g, temp + wind), status) == Apply(ApplyAll(g, temp + wind), status[0]);
  }

  /** Looking a labelled series up and then setting it is just setting it. */
  lemma TouchThenSet(g: Gauges, s: Series, v: real)
    requires !s.ApiStatus?
    ensures ApplyAll(g, [Touch(s), Set(s, v)]) == Apply(g, Set(s, v))
  {
    var h := Apply(g, Touch(s));
    assert [Touch(s), Set(s, v)][1..] == [Set(s, v)];
    assert ApplyAll(g, [Touch(s), Set(s, v)]) == ApplyAll(h, [Set(s, v)]);
    assert [Set(s, v)][1..] == [];
    assert ApplyAll(h, [Set(s, v)]) == Apply(h, Set(s, v));
    match s {
      case Temperature(l) =>
        assert g.temperature[l := 0.0][l := v] == g.temperature[l := v];
      case WindSpeed(l) =>
        assert g.windSpeed[l := 0.0][l := v] == g.windSpeed[l := v];
    }
  }

  /** Polling again with the same readings leaves the registry as it was. */
  lemma SuccessIsIdempotent(g: Gauges, t: real, w: real)
    ensures AfterPoll(AfterPoll(g, Reading(t, w)), Reading(t, w)) == AfterPoll(g, Reading(t, w))
  {
    SuccessPublishesReadings(g, t, w);
    SuccessPublishesReadings(AfterPoll(g, Reading(t, w)), t, w);
  }

  /**
   * A request error sets the status to 0, returns False and leaves both
   * labelled gauges as they were.
   */
  lemma RequestErrorKeepsReadings(g: Gauges)
    ensures Poll(RequestFailed).result == Returned(false)
    ensures AfterPoll(g, RequestFailed) == g.(apiStatus := 0.0)
  {
    var ws := Poll(RequestFailed).writes;
    assert ws[..0] == [] && ws[..1] == ws;
    ApplyAllSnoc(g, ws, 0);
  }

  /** A body without `current_weather` raises `KeyError` before any write. */
  lemma MissingCurrentWeatherWritesNothing(g: Gauges)
    ensures Poll(Decoded(None)).result == KeyErrorRaised
    ensures AfterPoll(g, Decoded(None)) == g
  {
  }

  /**
   * A reading without `windspeed` is a partial write: the temperature is
   * already published when the `KeyError` escapes, the wind-speed series
   * exists (created at 0 if it was absent) and the status is untouched.
   */
  lemma MissingWindSpeedIsPartialWrite(g: Gauges, t: real)
    ensures var r := Decoded(Some(CurrentWeather(Some(t), None)));
            Poll(r).result == KeyErrorRaised &&
            AfterPoll(g, r) ==
            Gauges(g.temperature[Astana := t],
                   if Astana in g.windSpeed then g.windSpeed else g.windSpeed[Astana := 0.0],
                   g.apiStatus)
  {
    var r := Decoded(Some(CurrentWeather(Some(t), None)));
    var ws := Poll(r).writes;
    assert ws[..0] == [] && ws[..3] == ws;
    ApplyAllSnoc(g, ws, 0);
    ApplyAllSnoc(g, ws, 1);
    ApplyAllSnoc(g, ws, 2);
  }

  /**
   * A reading without `temperature` raises `KeyError` after the temperature
   * series was looked up: the series exists afterwards (at 0 if it was
   * absent), nothing else changes.
   */
  lemma MissingTemperatureOnlyCreatesSeries(g: Gauges, w: Option<real>)
    ensures var r := Decoded(Some(CurrentWeather(None, w)));
            Poll(r).result == KeyErrorRaised &&
            AfterPoll(g, r) ==
            g.(temperature := if Astana in g.temperature then g.temperature
                              else g.temperature[Astana := 0.0])
  {
    var ws := Poll(Decoded(Some(CurrentWeather(None, w)))).writes;
    assert ws[..0] == [] && ws[..1] == ws;
    ApplyAllSnoc(g, ws, 0);
  }

  /**
   * The status write comes after both readings are written: a scrape taken
   * part-way through a successful poll sees the old status, and by the time
   * the status is written both Astana readings are the new ones.
   */
  lemma {:induction false} StatusWrittenLast(g: Gauges, t: real, w: real, k: nat)
    requires k < |Poll(Reading(t, w)).writes|
    ensures ApplyAll(g, Poll(Reading(t, w)).writes[..k]).apiStatus == g.apiStatus
    ensures var h := ApplyAll(g, Poll(Reading(t, w)).writes[..4]);
            Astana in h.temperature && Astana in h.windSpeed &&
            h.temperature[Astana] == t && h.windSpeed[Astana] == w
  {
    var ws := Poll(Reading(t, w)).writes;
    assert ws[..0] == [];
    ApplyAllSnoc(g, ws, 0);
    ApplyAllSnoc(g, ws, 1);
    ApplyAllSnoc(g, ws, 2);
    ApplyAllSnoc(g, ws, 3);
  }

  // ---------------------------------------------------------------------
  // The poll loop (`while True: fetch_weather_data(); time.sleep(30)`)
  // ---------------------------------------------------------------------

  /**
   * Where the poll loop stands after being given a sequence of responses:
   * the registry, the number of polls run, and whether an escaping `KeyError`
   * ended the process.
   */
  datatype LoopEnd = LoopEnd(gauges: Gauges, polls: nat, crashed: bool)

  function PollLoop(g: Gauges, rs: seq<Response>): (e: LoopEnd)
    decreases rs
    ensures e.polls <= |rs|
    ensures !e.crashed ==> e.polls == |rs|
    ensures e.crashed ==> 0 < e.polls && Poll(rs[e.polls - 1]).result == KeyErrorRaised
    ensures forall i :: 0 <= i < e.polls && !(e.crashed && i == e.polls - 1) ==>
                        Poll(rs[i]).result.Returned?
  {
    if rs == [] then LoopEnd(g, 0, false)
    else
      var g1 := AfterPoll(g, rs[0]);
      if Poll(rs[0]).result == KeyErrorRaised then LoopEnd(g1, 1, true)
      else
        var e := PollLoop(g1, rs[1..]);
        LoopEnd(e.gauges, e.polls + 1, e.crashed)
  }

  /**
   * After any run of the loop the status gauge is the outcome (1 for True, 0
   * for False) of the most recent poll that returned, whatever the last poll
   * was; with no such poll it is where it started.
   */
  lemma {:induction false} StatusIsLastReturnedPoll(g: Gauges, rs: seq<Response>, j: int)
    decreases rs
    requires -1 <= j < PollLoop(g, rs).polls
    requires 0 <= j ==> Poll(rs[j]).result.Returned?
    requires forall i :: j < i < PollLoop(g, rs).polls ==> Poll(rs[i]).result == KeyErrorRaised
    ensures PollLoop(g, rs).gauges.apiStatus ==
            if j < 0 then g.apiStatus else if Poll(rs[j]).result.up then 1.0 else 0.0
  {
    if rs != [] {
      var g1 := AfterPoll(g, rs[0]);
      if Poll(rs[0]).result == KeyErrorRaised {
        KeyErrorKeepsStatus(g, rs[0]);
      } else {
        assert 0 <= j;
        if j == 0 {
          ReturnedPollSetsStatus(g, rs[0]);
        }
        StatusIsLastReturnedPoll(g1, rs[1..], j - 1);
      }
    }
  }

  /** A poll that raises `KeyError` leaves the status gauge alone. */
  lemma KeyErrorKeepsStatus(g: Gauges, r: Response)
    requires Poll(r).result == KeyErrorRaised
    ensures AfterPoll(g, r).apiStatus == g.apiStatus
  {
    match r
    case Decoded(Some(CurrentWeather(Some(t), None))) =>
      MissingWindSpeedIsPartialWrite(g, t);
    case Decoded(Some(CurrentWeather(None, w))) =>
      MissingTemperatureOnlyCreatesSeries(g, w);
    case Decoded(None) =>
  }

  /** A poll that returns sets the status gauge to its result. */
  lemma ReturnedPollSetsStatus(g: Gauges, r: Response)
    requires Poll(r).result.Returned?
    ensures AfterPoll(g, r).apiStatus == if Poll(r).result.up then 1.0 else 0.0
  {
    match r
    case Decoded(Some(CurrentWeather(Some(t), Some(w)))) =>
      SuccessPublishesReadings(g, t, w);
    case RequestFailed =>
      RequestErrorKeepsReadings(g);
  }

  /**
   * Only the (Astana, Kazakhstan) label set is ever written: every other
   * child series of the labelled gauges keeps its presence and its value.
   */
  lemma {:induction false} OnlyAstanaIsWritten(g: Gauges, rs: seq<Response>)
    decreases rs
    ensures var h := PollLoop(g, rs).gauges;
            h.temperature.Keys <= g.temperature.Keys + {Astana} &&
            h.windSpeed.Keys <= g.windSpeed.Keys + {Astana} &&
            (forall l :: l != Astana && l in g.temperature ==>
                           l in h.temperature && h.temperature[l] == g.temperature[l]) &&
            (forall l :: l != Astana && l in g.windSpeed ==>
                           l in h.windSpeed && h.windSpeed[l] == g.windSpeed[l])
  {
    if rs != [] {
      PollWritesOnlyAstana(g, rs[0]);
      if Poll(rs[0]).result != KeyErrorRaised {
        OnlyAstanaIsWritten(AfterPoll(g, rs[0]), rs[1..]);
      }
    }
  }

  /** One poll writes only the Astana children of the labelled gauges. */
  lemma PollWritesOnlyAstana(g: Gauges, r: Response)
    ensures var h := AfterPoll(g, r);
            h.temperature.Keys <= g.temperature.Keys + {Astana} &&
            h.windSpeed.Keys <= g.windSpeed.Keys + {Astana} &&
            (forall l :: l != Astana && l in g.temperature ==>
                           l in h.temperature && h.temperature[l] == g.temperature[l]) &&
            (forall l :: l != Astana && l in g.windSpeed ==>
                           l in h.windSpeed && h.windSpeed[l] == g.windSpeed[l])
  {
    match r
    case Decoded(Some(CurrentWeather(Some(t), Some(w)))) =>
      SuccessPublishesReadings(g, t, w);
    case Decoded(Some(CurrentWeather(Some(t), None))) =>
      MissingWindSpeedIsPartialWrite(g, t);
    case Decoded(Some(CurrentWeather(None, w))) =>
      MissingTemperatureOnlyCreatesSeries(g, w);
    case Decoded(None) =>
    case RequestFailed =>
      RequestErrorKeepsReadings(g);
  }

  // ---------------------------------------------------------------------
  // The registry object
  // ---------------------------------------------------------------------

  /**
   * The process-wide registry holding the exporter's three gauges. `trace`
   * records every operation performed on it, in order; the registry always
   * equals those operations replayed from the initial state.
   */
  class Registry {
    var temperature: map<Labels, real>
    var windSpeed: map<Labels, real>
    var apiStatus: real
    ghost var trace: seq<Write>

    /** What a scrape of the registry returns. */
    function Snapshot(): Gauges
      reads this
    {
      Gauges(temperature, windSpeed, apiStatus)
    }

    ghost predicate Valid()
      reads this
    {
      Snapshot() == ApplyAll(Initial, trace)
    }

    constructor ()
      ensures Valid() && trace == [] && Snapshot() == Initial
    {
      temperature, windSpeed, apiStatus := map[], map[], 0.0;
      trace := [];
    }

    /** Performs one registry operation. */
    method Perform(w: Write)
      requires Valid()
      modifies this
      ensures Valid()
      ensures trace == old(trace) + [w]
      ensures Snapshot() == Apply(old(Snapshot()), w)
    {
      match w {
        case Touch(Temperature(l)) =>
          if l !in temperature { temperature := temperature[l := 0.0]; }
        case Touch(WindSpeed(l)) =>
          if l !in windSpeed { windSpeed := windSpeed[l := 0.0]; }
        case Touch(ApiStatus) =>
        case Set(Temperature(l), v) => temperature := temperature[l := v];
        case Set(WindSpeed(l), v) => windSpeed := windSpeed[l := v];
        case Set(ApiStatus, v) => apiStatus := v;
      }
      ApplyAllAppend(Initial, trace, [w]);
      assert [w][1..] == [];
      trace := trace + [w];
    }

    /**
     * `fetch_weather_data`: one poll that received `response`. The registry
     * goes through the poll's writes in order and the call ends as `Poll` says.
     */
    method FetchWeatherData(response: Response) returns (result: PollResult)
      requires Valid()
      modifies this
      ensures Valid()
      ensures trace == old(trace) + Poll(response).writes
      ensures Snapshot() == AfterPoll(old(Snapshot()), response)
      ensures result == Poll(response).result
    {
      match response {
        case RequestFailed =>
          Perform(Set(ApiStatus, 0.0));
          result := Returned(false);
        case Decoded(current) =>
          if current.None? {
            result := KeyErrorRaised;
          } else {
            Perform(Touch(Temperature(Astana)));
            if current.value.temperature.None? {
              result := KeyErrorRaised;
            } else {
              Perform(Set(Temperature(Astana), current.value.temperature.value));
              Perform(Touch(WindSpeed(Astana)));
              if current.value.windSpeed.None? {
                result := KeyErrorRaised;
              } else {
                Perform(Set(WindSpeed(Astana), current.value.windSpeed.value));
                Perform(Set(ApiStatus, 1.0));
                result := Returned(true);
              }
            }
          }
      }
      ApplyAllAppend(Initial, old(trace), Poll(response).writes);
    }

    /**
     * The main loop over the responses of successive polls: it polls until
     * the responses run out or a `KeyError` escapes and ends the process.
     */
    method RunPolls(responses: seq<Response>) returns (polls: nat, crashed: bool)
      requires Valid()
      modifies this
      ensures Valid()
      ensures PollLoop(old(Snapshot()), responses) == LoopEnd(Snapshot(), polls, crashed)
    {
      polls, crashed := 0, false;
      while polls < |responses|
        invariant Valid()
        invariant polls <= |responses|
        invariant var e := PollLoop(Snapshot(), responses[polls..]);
                  PollLoop(old(Snapshot()), responses) == LoopEnd(e.gauges, e.polls + polls, e.crashed)
      {
        var result := FetchWeatherData(responses[polls]);
        assert responses[polls..][1..] == responses[polls + 1..];
        polls := polls + 1;
        if result == KeyErrorRaised {
          crashed := true;
          return;
        }
      }
    }
  }
}
