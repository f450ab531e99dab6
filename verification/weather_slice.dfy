/** The `weather` slice of the store: three fields and the four transitions
    that change them (the fetch's pending / fulfilled / rejected cases and the
    `clearWeather` reducer). */
module WeatherSlice {
  import opened Wrappers
  import opened Payload

  /** `{ data, loading, error }`; `None` is `null` (or, for `error`, `undefined`). */
  datatype State = State(
    data: Option<WeatherPayload>,
    loading: bool,
    error: Option<string>)

  /** The actions the slice reacts to. `Rejected` carries `action.error.message`,
      which is absent when the thrown value had no message. */
  datatype Action =
    | Pending
    | Fulfilled(payload: WeatherPayload)
    | Rejected(message: Option<string>)
    | ClearWeather

  /** The state the store is created with. */
  const Initial: State := State(None, false, None)

  /** The reducer: one action applied to one state. Each action writes only
      its own fields; every other field is carried over. */
  function Step(s: State, a: Action): (r: State)
    // pending writes loading only
    ensures a.Pending? ==> r.loading && r.data == s.data && r.error == s.error
    // fulfilled replaces all three fields, the payload verbatim
    ensures a.Fulfilled? ==> r.data == Some(a.payload) && !r.loading && r.error == None
    // rejected writes error and loading, never data
    ensures a.Rejected? ==> r.error == a.message && !r.loading && r.data == s.data
    // clearWeather writes data and error, never loading
    ensures a.ClearWeather? ==> r.data == None && r.error == None && r.loading == s.loading
  {
    match a
    case Pending => s.(loading := true)
    case Fulfilled(p) => s.(data := Some(p), loading := false, error := None)
    case Rejected(m) => s.(error := m, loading := false)
    case ClearWeather => s.(data := None, error := None)
  }

  /** The state after a sequence of actions, applied first to last. Any
      interleaving of several fetches' actions is such a sequence. */
  function Run(s: State, trace: seq<Action>): (r: State)
    ensures trace == [] ==> r == s
    // Whatever came before, the fields the final action writes hold its values.
    ensures trace != [] && trace[|trace| - 1].Pending? ==> r.loading
    ensures trace != [] && trace[|trace| - 1].Fulfilled? ==>
              r == State(Some(trace[|trace| - 1].payload), false, None)
    ensures trace != [] && trace[|trace| - 1].Rejected? ==>
              !r.loading && r.error == trace[|trace| - 1].message
    ensures trace != [] && trace[|trace| - 1].ClearWeather? ==> r.data == None && r.error == None
    decreases |trace|
  {
    if trace == [] then s else Run(Step(s, trace[0]), trace[1..])
  }

  lemma InitialIsEmpty()
    ensures Initial.data == None && !Initial.loading && Initial.error == None
  {
  }

  /** `pending` raises `loading` and keeps both the old data and the old error. */
  lemma PendingEffect(s: State)
    ensures Step(s, Pending).loading
    ensures Step(s, Pending).data == s.data
    ensures Step(s, Pending).error == s.error
  {
  }

  /** `fulfilled` stores the payload exactly as received and clears the error. */
  lemma FulfilledEffect(s: State, p: WeatherPayload)
    ensures Step(s, Fulfilled(p)) == State(Some(p), false, None)
  {
  }

  /** `rejected` records the message and leaves the previous data in place. */
  lemma RejectedEffect(s: State, m: Option<string>)
    ensures Step(s, Rejected(m)).error == m
    ensures !Step(s, Rejected(m)).loading
    ensures Step(s, Rejected(m)).data == s.data
  {
  }

  /** `clearWeather` empties data and error and does not touch `loading`. */
  lemma ClearEffect(s: State)
    ensures Step(s, ClearWeather).data == None
    ensures Step(s, ClearWeather).error == None
    ensures Step(s, ClearWeather).loading == s.loading
  {
  }

  /** Whatever the prior state, a settled fetch leaves `loading` false. */
  lemma SettledNotLoading(s: State, a: Action)
    requires a.Fulfilled? || a.Rejected?
    ensures !Step(s, a).loading
  {
  }

  /** Applying the same `fulfilled` twice is the same as applying it once. */
  lemma FulfilledIdempotent(s: State, p: WeatherPayload)
    ensures Step(Step(s, Fulfilled(p)), Fulfilled(p)) == Step(s, Fulfilled(p))
  {
  }

  /** A whole successful fetch, from any state, ends in exactly the received
      payload. The second clause is a corollary of the first, spelled out for
      the hourly readings: they keep their length and contents. */
  lemma PendingThenFulfilled(s: State, p: WeatherPayload)
    ensures Run(s, [Pending, Fulfilled(p)]) == State(Some(p), false, None)
    ensures p.hourly.Some? && p.hourly.value.temperature2m.Some? ==>
              Run(s, [Pending, Fulfilled(p)]).data.value.hourly.value.temperature2m.value
                == p.hourly.value.temperature2m.value
  {
    RunTwo(s, Pending, Fulfilled(p));
  }

  /** A two-action trace is two steps. */
  lemma RunTwo(s: State, a: Action, b: Action)
    ensures Run(s, [a, b]) == Step(Step(s, a), b)
  {
    assert [a, b][1..] == [b];
    assert [b][1..] == [];
    assert Run(Step(s, a), [b]) == Run(Step(Step(s, a), b), []);
  }

  /** Running a trace one action longer is one more step. */
  lemma {:induction false} RunSnoc(s: State, trace: seq<Action>, a: Action)
    ensures Run(s, trace + [a]) == Step(Run(s, trace), a)
    decreases |trace|
  {
    if trace == [] {
      assert [a][1..] == [];
    } else {
      assert (trace + [a])[1..] == trace[1..] + [a];
      RunSnoc(Step(s, trace[0]), trace[1..], a);
    }
  }

  /** Reference definition of each field after a trace, read backwards: a
      field holds what the LAST action that writes it wrote, or its starting
      value when no action in the trace writes it. */
  function DataAfter(d: Option<WeatherPayload>, trace: seq<Action>): Option<WeatherPayload>
    decreases |trace|
  {
    if trace == [] then d
    else match trace[|trace| - 1]
      case Fulfilled(p) => Some(p)
      case ClearWeather => None
      case _ => DataAfter(d, trace[..|trace| - 1])
  }

  function LoadingAfter(l: bool, trace: seq<Action>): bool
    decreases |trace|
  {
    if trace == [] then l
    else match trace[|trace| - 1]
      case Pending => true
      case Fulfilled(_) => false
      case Rejected(_) => false
      case ClearWeather => LoadingAfter(l, trace[..|trace| - 1])
  }

  function ErrorAfter(e: Option<string>, trace: seq<Action>): Option<string>
    decreases |trace|
  {
    if trace == [] then e
    else match trace[|trace| - 1]
      case Pending => ErrorAfter(e, trace[..|trace| - 1])
      case Fulfilled(_) => None
      case Rejected(m) => m
      case ClearWeather => None
  }

  /** The reducer run over any trace agrees field by field with the
      last-writer reference definition. */
  lemma {:induction false} RunIsLastWriter(s: State, trace: seq<Action>)
    ensures Run(s, trace) == State(DataAfter(s.data, trace), LoadingAfter(s.loading, trace), ErrorAfter(s.error, trace))
    decreases |trace|
  {
    if trace != [] {
      var init, a := trace[..|trace| - 1], trace[|trace| - 1];
      assert trace == init + [a];
      RunSnoc(s, init, a);
      RunIsLastWriter(s, init);
    }
  }

  /** Last fulfilled wins: once a `fulfilled(p)` has been applied, only a later
      `fulfilled` or `clearWeather` replaces `p`; later `pending` and
      `rejected` actions (from any other request) leave it visible. */
  lemma {:induction false} LastFulfilledWins(s: State, trace: seq<Action>, i: nat)
    requires i < |trace| && trace[i].Fulfilled?
    requires forall j :: i < j < |trace| ==> trace[j].Pending? || trace[j].Rejected?
    ensures Run(s, trace).data == Some(trace[i].payload)
  {
    RunIsLastWriter(s, trace);
    DataAfterLastFulfilled(s.data, trace, i);
  }

  lemma {:induction false} DataAfterLastFulfilled(d: Option<WeatherPayload>, trace: seq<Action>, i: nat)
    requires i < |trace| && trace[i].Fulfilled?
    requires forall j :: i < j < |trace| ==> trace[j].Pending? || trace[j].Rejected?
    ensures DataAfter(d, trace) == Some(trace[i].payload)
    decreases |trace|
  {
    if i < |trace| - 1 {
      var init := trace[..|trace| - 1];
      assert init[i] == trace[i];
      forall j | i < j < |init|
        ensures init[j].Pending? || init[j].Rejected?
      {
        assert init[j] == trace[j];
      }
      DataAfterLastFulfilled(d, init, i);
    }
  }

  /** `loading` is raised exactly when the last action that writes it is a
      `pending`; with two overlapping fetches the first to settle lowers it
      while the other is still in flight. */
  lemma {:induction false} LoadingIffLastWriterPending(s: State, trace: seq<Action>, i: nat)
    requires i < |trace| && !trace[i].ClearWeather?
    requires forall j :: i < j < |trace| ==> trace[j].ClearWeather?
    ensures Run(s, trace).loading <==> trace[i].Pending?
  {
    RunIsLastWriter(s, trace);
    LoadingAfterLastWriter(s.loading, trace, i);
  }

  lemma {:induction false} LoadingAfterLastWriter(l: bool, trace: seq<Action>, i: nat)
    requires i < |trace| && !trace[i].ClearWeather?
    requires forall j :: i < j < |trace| ==> trace[j].ClearWeather?
    ensures LoadingAfter(l, trace) <==> trace[i].Pending?
    decreases |trace|
  {
    if i < |trace| - 1 {
      var init := trace[..|trace| - 1];
      assert init[i] == trace[i];
      forall j | i < j < |init|
        ensures init[j].ClearWeather?
      {
        assert init[j] == trace[j];
      }
      LoadingAfterLastWriter(l, init, i);
    }
  }

  /** Two overlapping fetches: the first to settle lowers `loading` although
      the second request is still outstanding. */
  lemma OverlappingFetchesSettleEarly(s: State, p: WeatherPayload)
    ensures !Run(s, [Pending, Pending, Fulfilled(p)]).loading
  {
    RunIsLastWriter(s, [Pending, Pending, Fulfilled(p)]);
  }
}
