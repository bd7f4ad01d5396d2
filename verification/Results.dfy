/** Submissions as JSON delivers them, and results as the store keeps them. */
module Results {
  import opened Lists

  /** A JSON value where the store reads a plain value; anything that is neither null, a boolean, an
      integer nor a string is only ever rejected there. */
  datatype Leaf = Undefined | Null | Bool(b: bool) | Num(n: int) | Str(s: string) | OtherValue

  /** A JSON value where the store expects an array. */
  datatype RawList<T> = Missing | NotArray | Items(items: seq<T>)

  /** The fields the store reads off a submission; a field of a value that is not an object, or that
      the object lacks, reads as undefined. Dictionaries read by a fixed key list are sequences in the
      order of that list. */
  datatype RawRatio = RawRatio(ready: Leaf, total: Leaf)
  datatype RawEffect = RawEffect(key: Leaf, withOption: RawRatio, withoutOption: RawRatio)
  datatype RawCombination = RawCombination(mask: Leaf, options: RawList<Leaf>, stages: seq<Leaf>)
  datatype RawPath = RawPath(
    path: Leaf, total: Leaf, counts: seq<Leaf>, effects: RawList<RawEffect>, combinations: RawList<RawCombination>)
  datatype RawGrease = Absent | Given(control: seq<Leaf>, enabled: seq<Leaf>)
  datatype RawSubmission = RawSubmission(
    schemaVersion: Leaf,
    browserName: Leaf,
    /** `String(version ?? "")` */
    browserVersion: string,
    secureContext: Leaf, webTransport: Leaf,
    mode: Leaf, cancelled: Leaf, plannedCases: Leaf, completedCases: Leaf,
    metrics: seq<Leaf>,
    paths: RawList<RawPath>,
    grease: RawGrease)

  function At(s: seq<Leaf>, k: nat): Leaf {
    if k < |s| then s[k] else Undefined
  }

  /** `throw` is `Rejected`. */
  datatype Result<+T> = Accepted(value: T) | Rejected {
    predicate IsFailure() {
      Rejected?
    }
    function PropagateFailure<U>(): Result<U>
      requires Rejected?
    {
      Rejected
    }
    function Extract(): T
      requires Accepted?
    {
      value
    }
  }

  datatype Outcome = Pass | Fail | Unavailable | NotRun

  function OutcomeText(o: Outcome): string {
    match o
    case Pass => "pass"
    case Fail => "fail"
    case Unavailable => "unavailable"
    case NotRun => "not-run"
  }

  /** `requiredCombinationOutcome` */
  function OutcomeOf(l: Leaf): Result<Outcome> {
    if l == Str("pass") then Accepted(Pass)
    else if l == Str("fail") then Accepted(Fail)
    else if l == Str("unavailable") then Accepted(Unavailable)
    else if l == Str("not-run") then Accepted(NotRun)
    else Rejected
  }

  lemma OutcomeRoundTrip(o: Outcome)
    ensures OutcomeOf(Str(OutcomeText(o))) == Accepted(o)
  {
    assert |"pass"| == 4 && |"fail"| == 4 && |"unavailable"| == 11 && |"not-run"| == 7;
    assert "fail"[0] != "pass"[0];
  }

  // positions in COMBINATION_STAGE_KEYS
  const CONSTRUCTOR: nat := 0
  const READY: nat := 1
  const BIDI: nat := 2
  const UNI: nat := 3
  const DATAGRAM: nat := 4
  const STAGES: nat := 5

  // PATH_METRICS are the five stages in this order, then "datagram unavailable"
  const DATAGRAM_UNAVAILABLE: nat := 5
  const PATH_METRICS: nat := 6

  // positions in METRICS of those the conclusion reads
  const M_CONSTRUCTOR: nat := 0
  const M_READY: nat := 1
  const M_DATAGRAM_UNAVAILABLE: nat := 3
  const M_STREAM_ECHO: nat := 6
  const M_FULL_ECHO: nat := 7
  const METRICS: nat := 8

  // positions in GREASE_PROBE_KEYS
  const G_CONSTRUCTOR: nat := 0
  const G_READY: nat := 1
  const G_DATAGRAM: nat := 2
  const G_BIDI: nat := 3
  const G_UNI: nat := 4

  datatype Ratio = Ratio(ready: nat, total: nat)
  datatype Effect = Effect(key: string, withOption: Ratio, withoutOption: Ratio)
  datatype Combination = Combination(mask: nat, options: seq<string>, stages: seq<Outcome>)
  datatype PathResult = PathResult(
    path: string, total: nat, counts: seq<nat>, effects: seq<Effect>, combinations: seq<Combination>, signal: string)
  datatype Browser = Browser(key: string, name: string, version: Option<string>)
  datatype Capabilities = Capabilities(secureContext: bool, webTransport: bool)
  datatype Run = Run(plannedCases: nat, completedCases: nat)
  datatype Verdict = ApiUnavailable | ControlFailed | Affected | Degraded | Tolerant
  datatype Grease = Grease(control: seq<Outcome>, enabled: seq<Outcome>, verdict: Verdict)
  datatype Snapshot = Snapshot(
    receivedAt: string, browser: Browser, capabilities: Capabilities, run: Run, metrics: seq<nat>,
    conclusion: string, paths: seq<PathResult>, grease: Option<Grease>)

  datatype Axis = Axis(key: string, title: string)

  /** The response paths and option axes both programs are written for. */
  datatype Config = Config(paths: seq<string>, axes: seq<Axis>)

  function Keys(cfg: Config): seq<string> {
    Map(cfg.axes, (a: Axis) => a.key)
  }

  ghost predicate ValidConfig(cfg: Config) {
    |cfg.axes| == 5 && 0 < |cfg.paths| <= 128 && Distinct(cfg.paths) && Distinct(Keys(cfg))
  }

  function Label(cfg: Config, key: string): string {
    LabelIn(cfg.axes, key)
  }

  function LabelIn(axes: seq<Axis>, key: string): string {
    if axes == [] then ""
    else if axes[0].key == key then axes[0].title
    else LabelIn(axes[1..], key)
  }

  /** `labels.join(separator)` */
  function Join(s: seq<string>, separator: string): string {
    if s == [] then "" else if |s| == 1 then s[0] else Join(s[..|s| - 1], separator) + separator + s[|s| - 1]
  }

  lemma {:induction false} JoinCons(x: string, rest: seq<string>, separator: string)
    ensures Join([x], separator) == x
    ensures rest != [] ==> Join([x] + rest, separator) == x + separator + Join(rest, separator)
  {
    if |rest| > 1 {
      var n := |rest| - 1;
      JoinCons(x, rest[..n], separator);
      assert ([x] + rest)[..|rest|] == [x] + rest[..n];
    } else if |rest| == 1 {
      assert ([x] + rest)[..1] == [x];
    }
  }

  /** Counts and outcomes as JSON carries them. */
  function CountLeaves(counts: seq<nat>): seq<Leaf> {
    Map(counts, (n: nat) => Num(n))
  }

  function OutcomeLeaves(stages: seq<Outcome>): seq<Leaf> {
    Map(stages, (o: Outcome) => Str(OutcomeText(o)))
  }

  // ---------------------------------------------------------------- the store's own lists

  const RESULT_PATHS: seq<string> :=
    ["/wt/basic", "/wt/protocol", "/wt/capsule", "/wt/init", "/wt/draft", "/wt/h3-token", "/wt/yggdrasil", "/wt/auto"]

  const OPTION_KEYS: seq<string> :=
    ["allowPooling", "requireUnreliable", "congestionControl", "protocols", "serverCertificateHashes"]

  const OPTION_LABELS: map<string, string> := map[
    "allowPooling" := "allowPooling=false",
    "requireUnreliable" := "requireUnreliable=true",
    "congestionControl" := "congestionControl=low-latency",
    "protocols" := "protocols=quicast-wt-v0",
    "serverCertificateHashes" := "serverCertificateHashes=sha-256"]

  /** `OPTION_LABELS.get(key)` */
  function StoreAxis(key: string): Axis {
    Axis(key, if key in OPTION_LABELS then OPTION_LABELS[key] else "")
  }

  const STORE_LISTS: Config := Config(RESULT_PATHS, Map(OPTION_KEYS, StoreAxis))

  lemma OptionKeysDistinct()
    ensures Distinct(OPTION_KEYS)
  {
    forall i, j | 0 <= i < j < 5 ensures OPTION_KEYS[i] != OPTION_KEYS[j] {
      assert OPTION_KEYS[i][0] != OPTION_KEYS[j][0];
    }
  }

  /** The store's lists have what the general theorems ask for, and every option key has a label. */
  lemma DeploymentIsValid()
    ensures ValidConfig(STORE_LISTS) && Keys(STORE_LISTS) == OPTION_KEYS
    ensures forall k :: k in OPTION_KEYS ==> k in OPTION_LABELS
  {
    forall i, j | 0 <= i < j < 8 ensures RESULT_PATHS[i] != RESULT_PATHS[j] {
      assert RESULT_PATHS[i][4] != RESULT_PATHS[j][4];
    }
    OptionKeysDistinct();
    assert Keys(STORE_LISTS) == OPTION_KEYS;
  }
}
