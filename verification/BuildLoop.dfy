/**
 The build and repair loop of the app builder (app_builder/pipeline.py).  The model, the
 compiler, the browser and the visual review are arbitrary functions of what they are given
 and of how often they were called, and any of them may fail.
 */
module BuildLoop {
  import opened Options

  datatype Issue = Issue(code: string, message: string, path: Option<string>)

  datatype Source = Source(files: map<string, string>, entrypoint: string)

  datatype Bundle = Bundle(javascript: string, css: string, sha256: string, staticHtml: string)

  datatype Compilation = Compiled(bundle: Bundle) | CompileIssues(issues: seq<Issue>) | CompilerCrash

  /** `html` is absent when the runner reports none, `Other` when it is not text. */
  datatype Html = Missing | Text(text: string) | Other

  datatype Smoke =
    | Passed(ready: bool, html: Html, screenshot: bool)
    | SmokeIssues(issues: seq<Issue>, screenshot: bool)
    | SmokeCrash

  datatype SmokeReport = NotConfigured | Report(ready: bool, html: Html)

  datatype Oracles = Oracles(
    generate: nat -> Option<Source>,
    inspect: Source -> seq<Issue>,
    compile: (nat, Source) -> Compilation,
    smoke: (nat, Bundle) -> Smoke,
    review: nat -> seq<Issue>,                        // an outage of the review finds nothing
    bulkyResults: Option<SmokeReport> -> bool,        // the test results exceed their envelope
    bulkyArtifact: Artifact -> bool,                  // the packaged app exceeds its envelope
    repair: (nat, Source, seq<Issue>) -> Option<Source>,
    regenerate: (nat, seq<Issue>) -> Option<Source>,
    scope: Issue -> string)

  datatype Config = Config(maxRepairs: nat, requireSmoke: bool, hasSmoke: bool, hasReviewer: bool, maxReviews: nat)

  const BLOCKING: set<string> := {
    "duplicate_source_path", "file_too_large", "invalid_source_path", "invalid_typescript",
    "missing_entrypoint", "missing_source", "source_too_large", "too_many_files"}

  const REFUSALS: set<string> := {
    "missing_static_render", "static_render_too_large", "build_test_results_too_large", "build_artifact_too_large"}

  const ACCEPTANCE := "acceptance_"
  const MAX_DIAGNOSTICS := 30
  const MAX_STATIC_HTML := 256 * 1024

  // ---------------------------------------------------------------- issues

  function Deduped(issues: seq<Issue>): seq<Issue> {
    if issues == [] then []
    else
      var front := Deduped(issues[..|issues| - 1]);
      if issues[|issues| - 1] in front then front else front + [issues[|issues| - 1]]
  }

  /** Every distinct issue once, in order of first appearance. */
  lemma {:induction false} DedupedKeepsEach(issues: seq<Issue>)
    ensures forall i :: i in Deduped(issues) <==> i in issues
    ensures forall i, j | 0 <= i < j < |Deduped(issues)| :: Deduped(issues)[i] != Deduped(issues)[j]
  {
    if issues != [] {
      DedupedKeepsEach(issues[..|issues| - 1]);
      assert issues == issues[..|issues| - 1] + [issues[|issues| - 1]];
    }
  }

  /** The order is that of the first appearances: what comes later never gets in between. */
  lemma {:induction false} DedupedKeepsOrder(issues: seq<Issue>, k: nat)
    requires k <= |issues|
    ensures Deduped(issues[..k]) <= Deduped(issues)
  {
    if k < |issues| {
      DedupedKeepsOrder(issues[..|issues| - 1], k);
      assert issues[..|issues| - 1][..k] == issues[..k];
    } else {
      assert issues[..k] == issues;
    }
  }

  function Flattened(history: seq<seq<Issue>>): seq<Issue> {
    if history == [] then [] else Flattened(history[..|history| - 1]) + history[|history| - 1]
  }

  function Diagnostics(history: seq<seq<Issue>>): seq<Issue> {
    var all := Deduped(Flattened(history));
    if |all| <= MAX_DIAGNOSTICS then all else all[..MAX_DIAGNOSTICS]
  }

  type Mark = (string, string, string)

  predicate IsAcceptance(i: Issue) { ACCEPTANCE <= i.code }

  /** The acceptance failures of a candidate, regardless of order; none when there are none. */
  function Fingerprint(o: Oracles, issues: seq<Issue>): Option<multiset<Mark>> {
    var marks := Marks(o, issues);
    if marks == multiset{} then None else Some(marks)
  }

  function Marks(o: Oracles, issues: seq<Issue>): multiset<Mark> {
    if issues == [] then multiset{}
    else
      var i := issues[|issues| - 1];
      Marks(o, issues[..|issues| - 1]) +
      (if IsAcceptance(i) then multiset{(i.code, o.scope(i), if i.path.Some? then i.path.value else "")}
        else multiset{})
  }

  lemma {:induction false} FlattenedHas(history: seq<seq<Issue>>)
    ensures forall i :: i in Flattened(history) <==> exists k :: 0 <= k < |history| && i in history[k]
  {
    if history != [] {
      var front, last := history[..|history| - 1], history[|history| - 1];
      FlattenedHas(front);
      forall i ensures i in Flattened(history) <==> exists k :: 0 <= k < |history| && i in history[k] {
        if i in last { assert i in history[|history| - 1]; }
        if k :| 0 <= k < |front| && i in front[k] { assert i in history[k]; }
        if k :| 0 <= k < |history| && i in history[k] { assert k < |front| ==> i in front[k]; }
      }
    }
  }

  /** The diagnostics of a clean start are the distinct issues of all candidates so far, the
      earliest thirty of them. */
  lemma DiagnosticsAreTheFirstThirty(history: seq<seq<Issue>>)
    ensures |Diagnostics(history)| <= 30 && Diagnostics(history) <= Deduped(Flattened(history))
    ensures |Diagnostics(history)| < 30 ==> Diagnostics(history) == Deduped(Flattened(history))
    ensures forall i | i in Diagnostics(history) :: exists k :: 0 <= k < |history| && i in history[k]
    ensures |Diagnostics(history)| < 30 ==>
      forall k, i | 0 <= k < |history| && i in history[k] :: i in Diagnostics(history)
  {
    FlattenedHas(history);
    DedupedKeepsEach(Flattened(history));
    assert forall i | i in Diagnostics(history) :: i in Deduped(Flattened(history));
  }

  /** A fingerprint counts every acceptance issue by code, scope and path, and nothing else. */
  lemma {:induction false} MarksAdd(o: Oracles, issues: seq<Issue>, more: seq<Issue>)
    ensures Marks(o, issues + more) == Marks(o, issues) + Marks(o, more)
  {
    if more == [] {
      assert issues + more == issues;
    } else {
      assert (issues + more)[..|issues + more| - 1] == issues + more[..|more| - 1];
      MarksAdd(o, issues, more[..|more| - 1]);
    }
  }

  lemma MarkOfOne(o: Oracles, i: Issue)
    ensures Marks(o, [i]) ==
      if "acceptance_" <= i.code then multiset{(i.code, o.scope(i), if i.path.Some? then i.path.value else "")}
      else multiset{}
  {
    assert [i][..0] == [];
  }

  lemma {:induction false} FingerprintIsPresent(o: Oracles, issues: seq<Issue>)
    ensures Fingerprint(o, issues).Some? <==> exists i :: i in issues && "acceptance_" <= i.code
    ensures Fingerprint(o, issues).Some? ==> Fingerprint(o, issues).value == Marks(o, issues)
  {
    if issues != [] {
      var front, last := issues[..|issues| - 1], issues[|issues| - 1];
      FingerprintIsPresent(o, front);
      assert issues == front + [last];
      MarksAdd(o, front, [last]);
      MarkOfOne(o, last);
      if "acceptance_" <= last.code {
        assert (last.code, o.scope(last), if last.path.Some? then last.path.value else "") in Marks(o, issues);
        assert last in issues;
      } else {
        assert Marks(o, issues) == Marks(o, front);
        forall i ensures i in issues && "acceptance_" <= i.code <==> i in front && "acceptance_" <= i.code {}
      }
    }
  }

  /** The fingerprint was that of an earlier candidate already. */
  predicate Repeats(o: Oracles, history: seq<seq<Issue>>, issues: seq<Issue>) {
    Fingerprint(o, issues).Some? &&
      exists k :: 0 <= k < |history| && Fingerprint(o, history[k]) == Fingerprint(o, issues)
  }

  // ---------------------------------------------------------------- one candidate

  datatype Verdict =
    | Accepted(bundle: Option<Bundle>, report: Option<SmokeReport>)
    | Rejected(issues: seq<Issue>)
    | Aborted

  predicate WantsScreenshot(c: Config, reviews: nat) { c.hasReviewer && reviews < c.maxReviews }

  /** The gates a candidate passes: policy, compiler, browser and visual review. */
  function Judge(o: Oracles, c: Config, n: nat, source: Source, reviews: nat): (Verdict, nat) {
    var policy := o.inspect(source);
    if exists i :: i in policy && i.code in BLOCKING then (Rejected(policy), reviews)
    else match o.compile(n, source)
      case CompilerCrash => (Aborted, reviews)
      case CompileIssues(found) =>
        var issues := Deduped(policy + found);
        if issues != [] then (Rejected(issues), reviews) else JudgeUnsmoked(c, None, reviews)
      case Compiled(bundle) =>
        if policy != [] then (Rejected(policy), reviews)
        else if c.hasSmoke then JudgeSmoked(o, c, n, bundle, reviews)
        else JudgeUnsmoked(c, Some(bundle), reviews)
  }

  function JudgeUnsmoked(c: Config, bundle: Option<Bundle>, reviews: nat): (Verdict, nat) {
    if c.requireSmoke then (Aborted, reviews) else (Accepted(bundle, Some(NotConfigured)), reviews)
  }

  function JudgeSmoked(o: Oracles, c: Config, n: nat, bundle: Bundle, reviews: nat): (Verdict, nat) {
    match o.smoke(n, bundle)
    case SmokeCrash => (Aborted, reviews)
    case SmokeIssues(issues, screenshot) =>
      if issues != [] then (Rejected(issues), reviews)
      else Reviewed(o, c, bundle, None, screenshot, reviews)
    case Passed(ready, html, screenshot) => Reviewed(o, c, bundle, Some(Report(ready, html)), screenshot, reviews)
  }

  function Reviewed(o: Oracles, c: Config, bundle: Bundle, report: Option<SmokeReport>, screenshot: bool,
        reviews: nat): (Verdict, nat) {
    if WantsScreenshot(c, reviews) && screenshot then
      var found := o.review(reviews);
      (if found == [] then Accepted(Some(bundle), report) else Rejected(found), reviews + 1)
    else (Accepted(Some(bundle), report), reviews)
  }

  predicate Screenshot(smoke: Smoke) { !smoke.SmokeCrash? && smoke.screenshot }

  // ---------------------------------------------------------------- what the gates say

  ghost predicate Blocked(policy: seq<Issue>) { exists i :: i in policy && i.code in BLOCKING }

  /** Policy and compiler: a blocking policy issue, or any once the source compiles, rejects with
      the policy's issues; issues of the compiler reject with both, each once; a crash aborts. */
  lemma SourceGates(o: Oracles, c: Config, n: nat, source: Source, reviews: nat)
    ensures var policy, (verdict, after) := o.inspect(source), Judge(o, c, n, source, reviews);
      && (Blocked(policy) ==> verdict == Rejected(policy) && after == reviews)
      && (!Blocked(policy) ==>
            match o.compile(n, source)
            case CompilerCrash => verdict == Aborted
            case CompileIssues(found) =>
              policy + found != [] ==> verdict == Rejected(Deduped(policy + found)) && after == reviews
            case Compiled(_) => policy != [] ==> verdict == Rejected(policy) && after == reviews)
  {
    if !Blocked(o.inspect(source)) && o.compile(n, source).CompileIssues? {
      DedupedKeepsEach(o.inspect(source) + o.compile(n, source).issues);
      if o.inspect(source) + o.compile(n, source).issues != [] {
        assert (o.inspect(source) + o.compile(n, source).issues)[0] in o.inspect(source) + o.compile(n, source).issues;
      }
    }
  }

  /** A visual review is due: one is set up, with budget left, and there is a screenshot to look at. */
  predicate ReviewDue(c: Config, reviews: nat, smoke: Smoke) {
    c.hasReviewer && reviews < c.maxReviews && Screenshot(smoke)
  }

  /** Browser and review, for a clean source that compiled, where a runner is configured: the
      issues of the run reject, a crash aborts; then the issues of a review that is due reject, and
      otherwise the candidate is accepted with what the run reported. */
  lemma BrowserGates(o: Oracles, c: Config, n: nat, source: Source, reviews: nat, bundle: Bundle)
    requires o.inspect(source) == [] && o.compile(n, source) == Compiled(bundle) && c.hasSmoke
    ensures var smoke, (verdict, after) := o.smoke(n, bundle), Judge(o, c, n, source, reviews);
      && (smoke.SmokeCrash? ==> verdict == Aborted)
      && (smoke.SmokeIssues? && smoke.issues != [] ==> verdict == Rejected(smoke.issues) && after == reviews)
      && (smoke.Passed? || (smoke.SmokeIssues? && smoke.issues == []) ==>
            && after == (if ReviewDue(c, reviews, smoke) then reviews + 1 else reviews)
            && (ReviewDue(c, reviews, smoke) && o.review(reviews) != [] ==> verdict == Rejected(o.review(reviews)))
            && (ReviewDue(c, reviews, smoke) ==> o.review(reviews) == [] || verdict.Rejected?)
            && (!ReviewDue(c, reviews, smoke) || o.review(reviews) == [] ==>
                  verdict == Accepted(Some(bundle),
                    if smoke.Passed? then Some(Report(smoke.ready, smoke.html)) else None)))
  {
  }

  /** Without a browser run a clean source is accepted unless a run is required. */
  lemma NoBrowserGates(o: Oracles, c: Config, n: nat, source: Source, reviews: nat)
    requires o.inspect(source) == []
    requires o.compile(n, source) == CompileIssues([]) || (o.compile(n, source).Compiled? && !c.hasSmoke)
    ensures var compiled, (verdict, after) := o.compile(n, source), Judge(o, c, n, source, reviews);
      && after == reviews && (c.requireSmoke ==> verdict == Aborted)
      && (!c.requireSmoke ==>
            verdict == Accepted(if compiled.Compiled? then Some(compiled.bundle) else None, Some(NotConfigured)))
  {
  }

  // ---------------------------------------------------------------- packaging

  datatype Artifact = Artifact(source: Source, bundle: Bundle, smokePassed: bool)

  /** The characters that stripping a text removes. */
  predicate IsSpace(c: char) {
    var n := c as int;
    || 0x09 <= n <= 0x0D || 0x1C <= n <= 0x20 || n == 0x85 || n == 0xA0 || n == 0x1680
    || 0x2000 <= n <= 0x200A || n == 0x2028 || n == 0x2029 || n == 0x202F || n == 0x205F || n == 0x3000
  }

  predicate Blank(s: string) {
    forall c | c in s :: IsSpace(c)
  }

  /** Bytes of one code point in UTF-8 (section 3 of RFC 3629). */
  function Utf8Width(c: char): nat {
    var n := c as int;
    if n < 0x80 then 1 else if n < 0x800 then 2 else if n < 0x10000 then 3 else 4
  }

  function Utf8Size(s: string): (n: nat)
    ensures |s| <= n <= 4 * |s|
  {
    if s == "" then 0 else Utf8Size(s[..|s| - 1]) + Utf8Width(s[|s| - 1])
  }

  /** Payload bits of a UTF-8 sequence of so many bytes: 7, 11, 16 and 21. */
  function Payload(bytes: nat): nat { if bytes == 1 then 7 else 5 * bytes + 1 }

  function TwoTo(n: nat): nat { if n == 0 then 1 else 2 * TwoTo(n - 1) }

  lemma TwoToPayloads()
    ensures TwoTo(7) == 128 && TwoTo(11) == 2048 && TwoTo(16) == 65536 && TwoTo(21) == 2097152
  {
    assert TwoTo(4) == 16 && TwoTo(7) == 8 * TwoTo(4) && TwoTo(11) == 16 * TwoTo(7);
    assert TwoTo(16) == 32 * TwoTo(11) && TwoTo(21) == 32 * TwoTo(16);
  }

  /** A code point takes the fewest bytes whose payload holds it. */
  lemma WidthIsLeast(c: char)
    ensures 1 <= Utf8Width(c) <= 4 && c as int < TwoTo(Payload(Utf8Width(c)))
    ensures Utf8Width(c) > 1 ==> TwoTo(Payload(Utf8Width(c) - 1)) <= c as int
  {
    TwoToPayloads();
  }

  /** The text is blank when it consists of these characters only: the controls that count as white
      space, the space, and the other spaces and line ends of Unicode. */
  lemma BlankMeans(s: string)
    ensures Blank(s) <==> forall c | c in s ::
      var n := c as int;
      n in {9, 10, 11, 12, 13, 28, 29, 30, 31, 32, 133, 160, 5760, 8192, 8193, 8194, 8195, 8196, 8197, 8198, 8199,
            8200, 8201, 8202, 8232, 8233, 8239, 8287, 12288}
  {
  }

  function HtmlOf(bundle: Bundle, report: Option<SmokeReport>): string {
    if report.Some? && report.value.Report? then
      match report.value.html
      case Missing => bundle.staticHtml
      case Text(text) => text
      case Other => ""
    else bundle.staticHtml
  }

  predicate SmokeReady(report: Option<SmokeReport>) {
    report.Some? && report.value.Report? && report.value.ready
  }

  function Rejection(code: string): seq<Issue> { [Issue(code, "", None)] }

  datatype Packaged = Package(artifact: Artifact) | Refused(issues: seq<Issue>)

  function Packed(o: Oracles, c: Config, source: Source, bundle: Bundle, report: Option<SmokeReport>): Packaged {
    var ready, html := SmokeReady(report), HtmlOf(bundle, report);
    var artifact := Artifact(source, bundle.(staticHtml := html), ready);
    if c.requireSmoke && !ready then Refused(Rejection("missing_static_render"))
    else if ready && Blank(html) then Refused(Rejection("missing_static_render"))
    else if Utf8Size(html) > MAX_STATIC_HTML then Refused(Rejection("static_render_too_large"))
    else if o.bulkyResults(report) then Refused(Rejection("build_test_results_too_large"))
    else if o.bulkyArtifact(artifact) then Refused(Rejection("build_artifact_too_large"))
    else Package(artifact)
  }

  /** A package is refused when a required render is missing or blank, or something is too large,
      under the first code that applies; otherwise the source, the bundle with the HTML of the
      render and whether the run was ready are packaged as they are. */
  lemma PackingRefuses(o: Oracles, c: Config, source: Source, bundle: Bundle, report: Option<SmokeReport>)
    ensures var ready, html := report.Some? && report.value.Report? && report.value.ready, HtmlOf(bundle, report);
      var whole := Artifact(source, Bundle(bundle.javascript, bundle.css, bundle.sha256, html), ready);
      var missing, large := (c.requireSmoke || ready) && (!ready || Blank(html)), Utf8Size(html) > 256 * 1024;
      Packed(o, c, source, bundle, report) ==
        if missing then Refused([Issue("missing_static_render", "", None)])
        else if large then Refused([Issue("static_render_too_large", "", None)])
        else if o.bulkyResults(report) then Refused([Issue("build_test_results_too_large", "", None)])
        else if o.bulkyArtifact(whole) then Refused([Issue("build_artifact_too_large", "", None)])
        else Package(whole)
  {
  }

  // ---------------------------------------------------------------- the loop

  datatype Request = Repair(previous: Source, issues: seq<Issue>) | Regenerate(diagnostics: seq<Issue>)

  /** Everything one build did: its candidates, what each was rejected for, what was asked, and
      how many visual reviews were used up before each candidate was judged. */
  datatype Trace = Trace(candidates: seq<Source>, history: seq<seq<Issue>>, requests: seq<Request>, spent: seq<nat>)

  datatype Result = Built(artifact: Artifact) | BuildRejected(issues: seq<Issue>) | BuildFailed

  function Answer(o: Oracles, n: nat, r: Request): Option<Source> {
    match r
    case Repair(previous, issues) => o.repair(n, previous, issues)
    case Regenerate(diagnostics) => o.regenerate(n, diagnostics)
  }

  predicate IsClean(requests: seq<Request>, i: nat) {
    i < |requests| && requests[i].Regenerate?
  }

  ghost predicate OneClean(requests: seq<Request>) {
    forall i: nat, j: nat {:trigger IsClean(requests, i), IsClean(requests, j)} |
      i < j < |requests| && IsClean(requests, i) :: !IsClean(requests, j)
  }

  /** Each request is the right one for what its candidate was rejected for: a local repair
      unless the acceptance failures repeat, otherwise one clean regeneration. */
  ghost predicate RequestsOk(o: Oracles, t: Trace) {
    && |t.requests| <= |t.history| && |t.requests| <= |t.candidates|
    && (forall i: nat {:trigger RequestOk(o, t, i)} | i < |t.requests| :: RequestOk(o, t, i))
  }

  ghost predicate RequestOk(o: Oracles, t: Trace, i: nat) {
    && i < |t.requests| <= |t.history| && |t.requests| <= |t.candidates|
    && (if Repeats(o, t.history[..i], t.history[i])
       then t.requests[i] == Regenerate(Diagnostics(t.history[..i + 1]))
       else t.requests[i] == Repair(t.candidates[i], t.history[i]))
  }

  /** Each later candidate is the answer to the request made for the one before. */
  ghost predicate CandidatesOk(o: Oracles, t: Trace) {
    && |t.candidates| <= |t.requests| + 1
    && (forall i: nat {:trigger CandidateOk(o, t, i)} | i < |t.candidates| :: CandidateOk(o, t, i))
  }

  predicate CandidateOk(o: Oracles, t: Trace, i: nat) {
    i < |t.candidates| <= |t.requests| + 1 &&
      (if i == 0 then o.generate(0) else Answer(o, i, t.requests[i - 1])) == Some(t.candidates[i])
  }

  /** Each recorded rejection is what the gates said of its candidate. */
  ghost predicate JudgedOk(o: Oracles, c: Config, t: Trace) {
    && |t.spent| == |t.history| + 1 && t.spent[0] == 0 && |t.history| <= |t.candidates|
    && (forall i: nat {:trigger JudgedSo(o, c, t, i)} | i < |t.history| :: JudgedSo(o, c, t, i))
  }

  predicate JudgedSo(o: Oracles, c: Config, t: Trace, i: nat) {
    && i < |t.history| <= |t.candidates| && |t.spent| == |t.history| + 1
    && t.history[i] != []
    && Judge(o, c, i + 1, t.candidates[i], t.spent[i]) == (Rejected(t.history[i]), t.spent[i + 1])
  }

  ghost predicate TraceOk(o: Oracles, c: Config, t: Trace) {
    && |t.candidates| <= c.maxRepairs + 1 && |t.requests| <= c.maxRepairs
    && JudgedOk(o, c, t) && OneClean(t.requests) && RequestsOk(o, t) && CandidatesOk(o, t)
  }

  /** How the n-th candidate ends a build, when it does. */
  predicate Ends(o: Oracles, c: Config, n: nat, source: Source, reviews: nat, result: Result) {
    var verdict := Judge(o, c, n, source, reviews).0;
    match result
    case Built(artifact) =>
      verdict.Accepted? && verdict.bundle.Some?
      && Packed(o, c, source, verdict.bundle.value, verdict.report) == Package(artifact)
    case BuildRejected(issues) =>
      verdict.Accepted? && verdict.bundle.Some?
      && Packed(o, c, source, verdict.bundle.value, verdict.report) == Refused(issues)
    case BuildFailed => verdict.Aborted? || (verdict.Accepted? && verdict.bundle.None?)
  }

  /** The text the browser run returned; the compiler's when there was no run or it returned none. */
  function RenderOf(o: Oracles, c: Config, n: nat, bundle: Bundle): string {
    if !c.hasSmoke || !o.smoke(n, bundle).Passed? then bundle.staticHtml
    else match o.smoke(n, bundle).html
      case Missing => bundle.staticHtml
      case Text(text) => text
      case Other => ""
  }

  /** What a returned artifact guarantees about the n-th candidate. */
  ghost predicate PackagedOk(o: Oracles, c: Config, n: nat, source: Source, reviews: nat, a: Artifact) {
    && a.source == source && o.inspect(source) == []
    && (exists bundle :: o.compile(n, source) == Compiled(bundle)
          && a.bundle == bundle.(staticHtml := a.bundle.staticHtml)
          && (a.smokePassed <==> c.hasSmoke && o.smoke(n, bundle).Passed? && o.smoke(n, bundle).ready)
          && (c.hasSmoke && o.smoke(n, bundle).SmokeIssues? ==> o.smoke(n, bundle).issues == [])
          && !(c.hasSmoke && o.smoke(n, bundle).SmokeCrash?)
          && a.bundle.staticHtml == RenderOf(o, c, n, bundle)
          && (c.hasSmoke && WantsScreenshot(c, reviews) && Screenshot(o.smoke(n, bundle)) ==> o.review(reviews) == []))
    && (c.requireSmoke ==> a.smokePassed)
    && (a.smokePassed ==> !Blank(a.bundle.staticHtml))
    && Utf8Size(a.bundle.staticHtml) <= MAX_STATIC_HTML
  }

  predicate RefusedOk(issues: seq<Issue>) {
    exists code :: code in REFUSALS && issues == Rejection(code)
  }

  /** The two outcomes of packaging, in the terms of the gates. */
  lemma EndsMeans(o: Oracles, c: Config, n: nat, source: Source, reviews: nat, result: Result)
    requires Ends(o, c, n, source, reviews, result)
    ensures result.Built? ==> PackagedOk(o, c, n, source, reviews, result.artifact)
    ensures result.BuildRejected? ==> RefusedOk(result.issues)
  {
  }

  ghost predicate HasCleaned(t: Trace) { exists i: nat :: i < |t.requests| && IsClean(t.requests, i) }

  /** Every candidate was rejected, and the last rejection was the last straw: the budget was
      spent, or the failures repeated after a clean start. */
  ghost predicate GaveUp(o: Oracles, c: Config, t: Trace, issues: seq<Issue>) {
    && |t.requests| + 1 == |t.history| == |t.candidates| && t.history[|t.history| - 1] == issues
    && (|t.requests| == c.maxRepairs || (HasCleaned(t) && Repeats(o, t.history[..|t.history| - 1], issues)))
  }

  /** The model did not answer the last request. */
  predicate Unanswered(o: Oracles, t: Trace) {
    && |t.requests| == |t.history| == |t.candidates|
    && (if t.candidates == [] then o.generate(0).None?
       else Answer(o, |t.candidates|, t.requests[|t.requests| - 1]).None?)
  }

  /** Why a build ended: it was given up, the model failed, or its last candidate, the one not
      rejected, ended it. */
  ghost predicate EndOk(o: Oracles, c: Config, t: Trace, result: Result) {
    var n := |t.candidates|;
    || (result.BuildRejected? && GaveUp(o, c, t, result.issues))
    || (result.BuildFailed? && Unanswered(o, t))
    || (|t.history| + 1 == n == |t.spent| && Ends(o, c, n, t.candidates[n - 1], t.spent[n - 1], result))
  }

  /** `seen` holds exactly the acceptance fingerprints of the candidates so far. */
  ghost predicate Remembers(o: Oracles, seen: set<multiset<Mark>>, history: seq<seq<Issue>>) {
    && (forall k | 0 <= k < |history| && Fingerprint(o, history[k]).Some? :: Fingerprint(o, history[k]).value in seen)
    && (forall m | m in seen :: exists k :: 0 <= k < |history| && Fingerprint(o, history[k]) == Some(m))
  }

  method Repeated(o: Oracles, seen: set<multiset<Mark>>, ghost history: seq<seq<Issue>>, issues: seq<Issue>)
    returns (repeated: bool)
    requires Remembers(o, seen, history)
    ensures repeated <==> Repeats(o, history, issues)
  {
    var mark := Fingerprint(o, issues);
    return mark.Some? && mark.value in seen;
  }

  method Remember(o: Oracles, seen: set<multiset<Mark>>, ghost history: seq<seq<Issue>>, issues: seq<Issue>)
    returns (more: set<multiset<Mark>>)
    requires Remembers(o, seen, history)
    ensures Remembers(o, more, history + [issues])
  {
    ghost var longer := history + [issues];
    assert forall k | 0 <= k < |history| :: longer[k] == history[k];
    assert longer[|history|] == issues;
    var mark := Fingerprint(o, issues);
    more := if mark.Some? then seen + {mark.value} else seen;
    forall m | m in more ensures exists k :: 0 <= k < |longer| && Fingerprint(o, longer[k]) == Some(m) {
      if m in seen {
        var k :| 0 <= k < |history| && Fingerprint(o, history[k]) == Some(m);
        assert Fingerprint(o, longer[k]) == Some(m);
      } else {
        assert Fingerprint(o, longer[|history|]) == Some(m);
      }
    }
  }

  class AppBuildPipeline {
    const config: Config

    constructor (config: Config)
      ensures this.config == config
    {
      this.config := config;
    }

    /** Judges and, when accepted, packages one candidate; `ended` when the build is over. */
    method Consider(o: Oracles, n: nat, source: Source, reviews: nat)
      returns (ended: Option<Result>, issues: seq<Issue>, reviews': nat)
      requires reviews <= config.maxReviews
      ensures reviews <= reviews' <= config.maxReviews
      ensures ended.None? ==> issues != [] && Judge(o, config, n, source, reviews) == (Rejected(issues), reviews')
      ensures ended.Some? ==> Ends(o, config, n, source, reviews, ended.value)
      ensures ended.Some? && ended.value.Built? ==> PackagedOk(o, config, n, source, reviews, ended.value.artifact)
      ensures ended.Some? && ended.value.BuildRejected? ==> RefusedOk(ended.value.issues)
    {
      var (verdict, after) := Judge(o, config, n, source, reviews);
      match verdict
      case Aborted => return Some(BuildFailed), [], after;
      case Rejected(found) => return None, found, after;
      case Accepted(bundle, report) =>
        if bundle.None? { return Some(BuildFailed), [], after; }
        var packed := Packed(o, config, source, bundle.value, report);
        if packed.Refused? { return Some(BuildRejected(packed.issues)), [], after; }
        return Some(Built(packed.artifact)), [], after;
    }

    method Build(o: Oracles) returns (result: Result, trace: Trace)
      ensures TraceOk(o, config, trace) && EndOk(o, config, trace, result)
      ensures result.Built? ==> ArtifactOk(o, config, trace, result.artifact)
    {
      result, trace := Loop(o);
      BuiltIsPackaged(o, config, trace, result);
    }

    /** The loop of `build`. */
    method Loop(o: Oracles) returns (result: Result, trace: Trace)
      ensures TraceOk(o, config, trace) && EndOk(o, config, trace, result)
    {
      trace := Trace([], [], [], [0]);
      var first := o.generate(0);
      if first.None? { return BuildFailed, trace; }
      var current, reviews := first.value, 0;
      trace := trace.(candidates := [current]);
      var seen: set<multiset<Mark>> := {};
      var cleaned := false;
      var repairs := 0;
      while true
        invariant Pending(o, config, trace, repairs, current)
        invariant reviews == trace.spent[repairs] <= config.maxReviews
        invariant Remembers(o, seen, trace.history)
        invariant cleaned <==> HasCleaned(trace)
        decreases config.maxRepairs - repairs
      {
        var ended, issues, after := Consider(o, repairs + 1, current, reviews);
        if ended.Some? {
          EndsTheBuild(o, config, trace, current, ended.value);
          return ended.value, trace;
        }
        var repeated := Repeated(o, seen, trace.history, issues);
        seen := Remember(o, seen, trace.history, issues);
        ghost var before := trace;
        reviews := after;
        trace := trace.(history := trace.history + [issues], spent := trace.spent + [reviews]);
        if (repeated && cleaned) || repairs >= config.maxRepairs {
          GivesUp(o, config, before, trace, issues);
          return BuildRejected(issues), trace;
        }
        var request := Chosen(repeated, current, trace.history, issues);
        cleaned := cleaned || repeated;
        repairs := repairs + 1;
        trace := trace.(requests := trace.requests + [request]);
        Asks(o, config, before, trace, issues, request);
        var next := Answer(o, repairs, request);
        if next.None? { return BuildFailed, trace; }
        current := next.value;
        ghost var asked := trace;
        trace := trace.(candidates := trace.candidates + [current]);
        CandidateGrows(o, config, asked, trace, current);
      }
    }
  }

  /** The artifact is the packaged last candidate, which passed every gate. */
  ghost predicate ArtifactOk(o: Oracles, c: Config, t: Trace, a: Artifact) {
    var n := |t.candidates|;
    0 < n == |t.spent| && PackagedOk(o, c, n, t.candidates[n - 1], t.spent[n - 1], a)
  }

  function Chosen(repeated: bool, current: Source, history: seq<seq<Issue>>, issues: seq<Issue>): Request {
    if repeated then Regenerate(Diagnostics(history)) else Repair(current, issues)
  }

  /** The head of the loop: every candidate but the last has been rejected and replaced. */
  ghost predicate Pending(o: Oracles, c: Config, t: Trace, repairs: nat, current: Source) {
    && |t.candidates| == repairs + 1 && |t.history| == |t.requests| == repairs <= c.maxRepairs
    && t.candidates[repairs] == current && TraceOk(o, c, t)
  }

  lemma EndsTheBuild(o: Oracles, c: Config, t: Trace, current: Source, result: Result)
    requires Pending(o, c, t, |t.history|, current)
    requires Ends(o, c, |t.candidates|, current, t.spent[|t.history|], result)
    ensures EndOk(o, c, t, result)
  {
  }

  lemma BuiltIsPackaged(o: Oracles, c: Config, t: Trace, result: Result)
    requires EndOk(o, c, t, result)
    ensures result.Built? ==> ArtifactOk(o, c, t, result.artifact)
  {
    var n := |t.candidates|;
    if result.Built? { EndsMeans(o, c, n, t.candidates[n - 1], t.spent[n - 1], result); }
  }

  /** `t` records one more rejection than `s`, which the gates gave. */
  predicate Rejects(o: Oracles, c: Config, s: Trace, t: Trace, issues: seq<Issue>) {
    && issues != [] && |s.candidates| == |s.spent| == |s.history| + 1
    && t.candidates == s.candidates && t.history == s.history + [issues]
    && |t.spent| == |s.spent| + 1 && t.spent == s.spent + [t.spent[|s.spent|]]
    && Judge(o, c, |s.candidates|, s.candidates[|s.history|], s.spent[|s.history|]) ==
         (Rejected(issues), t.spent[|s.spent|])
  }

  lemma HistoryGrows(o: Oracles, c: Config, s: Trace, t: Trace, issues: seq<Issue>)
    requires TraceOk(o, c, s) && Rejects(o, c, s, t, issues) && t.requests == s.requests
    ensures TraceOk(o, c, t) && (HasCleaned(t) <==> HasCleaned(s))
  {
    forall i: nat | i < |t.history| ensures JudgedSo(o, c, t, i) {
      if i < |s.history| { assert JudgedSo(o, c, s, i); }
    }
    forall i: nat | i < |t.requests| ensures RequestOk(o, t, i) {
      assert RequestOk(o, s, i);
      assert t.history[..i] == s.history[..i] && t.history[..i + 1] == s.history[..i + 1];
    }
    forall i: nat | i < |t.candidates| ensures CandidateOk(o, t, i) { assert CandidateOk(o, s, i); }
  }

  /** Stopping is right when the budget is spent or the failures repeat after a clean start. */
  lemma GivesUp(o: Oracles, c: Config, s: Trace, t: Trace, issues: seq<Issue>)
    requires |s.candidates| > 0 && Pending(o, c, s, |s.requests|, s.candidates[|s.candidates| - 1])
    requires Rejects(o, c, s, t, issues) && t.requests == s.requests
    requires |s.requests| == c.maxRepairs || (HasCleaned(s) && Repeats(o, s.history, issues))
    ensures TraceOk(o, c, t) && EndOk(o, c, t, BuildRejected(issues))
  {
    HistoryGrows(o, c, s, t, issues);
    assert t.history[..|t.history| - 1] == s.history;
  }

  lemma Asks(o: Oracles, c: Config, s: Trace, t: Trace, issues: seq<Issue>, r: Request)
    requires |s.candidates| > 0 && Pending(o, c, s, |s.requests|, s.candidates[|s.candidates| - 1])
    requires Rejects(o, c, s, t, issues) && t.requests == s.requests + [r]
    requires |s.requests| < c.maxRepairs && (HasCleaned(s) ==> !Repeats(o, s.history, issues))
    requires r == Chosen(Repeats(o, s.history, issues), s.candidates[|s.candidates| - 1], t.history, issues)
    ensures TraceOk(o, c, t) && (HasCleaned(t) <==> HasCleaned(s) || Repeats(o, s.history, issues))
    ensures Answer(o, |t.candidates|, r).None? ==> EndOk(o, c, t, BuildFailed)
  {
    var h := t.(requests := s.requests);
    HistoryGrows(o, c, s, h, issues);
    var n := |s.requests|;
    assert t.history[..n] == s.history && t.history[..n + 1] == t.history;
    RequestGrows(o, c, h, t, r);
  }

  lemma RequestGrows(o: Oracles, c: Config, s: Trace, t: Trace, r: Request)
    requires TraceOk(o, c, s) && |s.requests| < c.maxRepairs && |s.history| == |s.candidates| == |s.requests| + 1
    requires t == s.(requests := s.requests + [r]) && RequestOk(o, t, |s.requests|)
    requires r.Regenerate? ==> !HasCleaned(s)
    ensures TraceOk(o, c, t) && (HasCleaned(t) <==> HasCleaned(s) || r.Regenerate?)
  {
    forall i: nat | i < |t.history| ensures JudgedSo(o, c, t, i) { assert JudgedSo(o, c, s, i); }
    forall i: nat | i < |t.requests| ensures RequestOk(o, t, i) {
      if i < |s.requests| { assert RequestOk(o, s, i); }
    }
    forall i: nat | i < |t.candidates| ensures CandidateOk(o, t, i) { assert CandidateOk(o, s, i); }
    forall i: nat, j: nat | i < j < |t.requests| && IsClean(t.requests, i) ensures !IsClean(t.requests, j) {
      assert IsClean(s.requests, i);
      if j < |s.requests| { assert !IsClean(s.requests, j); }
    }
    if r.Regenerate? { assert IsClean(t.requests, |s.requests|); }
    if i: nat :| i < |s.requests| && IsClean(s.requests, i) { assert IsClean(t.requests, i); }
    if i: nat :| i < |t.requests| && IsClean(t.requests, i) { assert i < |s.requests| ==> IsClean(s.requests, i); }
  }

  lemma CandidateGrows(o: Oracles, c: Config, s: Trace, t: Trace, source: Source)
    requires TraceOk(o, c, s) && |s.history| == |s.candidates| == |s.requests| <= c.maxRepairs && s.candidates != []
    requires t == s.(candidates := s.candidates + [source])
    requires Answer(o, |s.candidates|, s.requests[|s.candidates| - 1]) == Some(source)
    ensures TraceOk(o, c, t) && (HasCleaned(t) <==> HasCleaned(s))
  {
    forall i: nat | i < |t.history| ensures JudgedSo(o, c, t, i) { assert JudgedSo(o, c, s, i); }
    forall i: nat | i < |t.requests| ensures RequestOk(o, t, i) { assert RequestOk(o, s, i); }
    forall i: nat | i < |t.candidates| ensures CandidateOk(o, t, i) {
      if i < |s.candidates| { assert CandidateOk(o, s, i); }
    }
  }

  // ---------------------------------------------------------------- what the record of a build means

  /** What the gates said of the i-th candidate. */
  function VerdictOn(o: Oracles, c: Config, t: Trace, i: nat): Verdict
    requires i < |t.candidates| && i < |t.spent|
  {
    Judge(o, c, i + 1, t.candidates[i], t.spent[i]).0
  }

  /** The review budget is never exceeded, the judgement of the last candidate included. */
  lemma {:induction false} ReviewsAreBounded(o: Oracles, c: Config, t: Trace, i: nat)
    requires TraceOk(o, c, t) && i < |t.spent|
    ensures t.spent[i] <= c.maxReviews
    ensures i < |t.candidates| ==> t.spent[i] <= Judge(o, c, i + 1, t.candidates[i], t.spent[i]).1 <= c.maxReviews
  {
    if i > 0 {
      ReviewsAreBounded(o, c, t, i - 1);
      assert JudgedSo(o, c, t, i - 1);
    }
  }

  /** A local repair is only ever asked for a candidate the gates rejected, for exactly what they
      said, with acceptance failures that no earlier candidate was rejected for; a clean start
      happens at most once, after some failure came back. */
  lemma RepairsOnlyNewFailures(o: Oracles, c: Config, t: Trace, i: nat, k: nat)
    requires TraceOk(o, c, t) && k < i < |t.requests|
    ensures VerdictOn(o, c, t, i).Rejected? && VerdictOn(o, c, t, k).Rejected?
    ensures var found, earlier := VerdictOn(o, c, t, i).issues, VerdictOn(o, c, t, k).issues;
      t.requests[i].Repair? ==>
        && t.requests[i] == Repair(t.candidates[i], found)
        && (Fingerprint(o, found).Some? ==> Fingerprint(o, earlier) != Fingerprint(o, found))
    ensures t.requests[i].Regenerate? ==>
      exists j: nat :: j < i && SameFailures(o, c, t, j, i)
    ensures t.requests[i].Regenerate? ==> !t.requests[k].Regenerate?
  {
    assert RequestOk(o, t, i) && JudgedSo(o, c, t, i) && JudgedSo(o, c, t, k);
    assert IsClean(t.requests, k) ==> !IsClean(t.requests, i);
    var before := t.history[..i];
    assert before[k] == t.history[k];
    if t.requests[i].Regenerate? {
      var j: nat :| j < |before| && Fingerprint(o, before[j]) == Fingerprint(o, t.history[i]);
      assert JudgedSo(o, c, t, j) && t.history[j] == before[j];
      assert SameFailures(o, c, t, j, i);
    }
  }

  predicate SameFailures(o: Oracles, c: Config, t: Trace, j: nat, i: nat) {
    && j < |t.candidates| && i < |t.candidates| && j < |t.spent| && i < |t.spent|
    && VerdictOn(o, c, t, j).Rejected? && VerdictOn(o, c, t, i).Rejected?
    && Fingerprint(o, VerdictOn(o, c, t, i).issues).Some?
    && Fingerprint(o, VerdictOn(o, c, t, j).issues) == Fingerprint(o, VerdictOn(o, c, t, i).issues)
  }

  /** Two records agree on the first `n` rejections and on the candidates up to the next. */
  predicate Agree(s: Trace, t: Trace, n: nat) {
    && n < |s.candidates| && n < |t.candidates| && s.candidates[..n + 1] == t.candidates[..n + 1]
    && n < |s.spent| && n < |t.spent| && s.spent[..n + 1] == t.spent[..n + 1]
    && n <= |s.history| && n <= |t.history| && s.history[..n] == t.history[..n]
    && n <= |s.requests| && n <= |t.requests| && s.requests[..n] == t.requests[..n]
  }

  lemma {:induction false} RecordsAgree(o: Oracles, c: Config, s: Trace, t: Trace, n: nat)
    requires TraceOk(o, c, s) && TraceOk(o, c, t) && n < |s.candidates| && n < |t.candidates|
    ensures Agree(s, t, n)
  {
    assert CandidateOk(o, s, n) && CandidateOk(o, t, n);
    if n > 0 {
      var m := n - 1;
      RecordsAgree(o, c, s, t, m);
      assert s.candidates[..n][m] == t.candidates[..n][m] && s.spent[..n][m] == t.spent[..n][m];
      assert JudgedSo(o, c, s, m) && JudgedSo(o, c, t, m);
      Extends(s.history, t.history, m);
      assert RequestOk(o, s, m) && RequestOk(o, t, m);
      Extends(s.requests, t.requests, m);
      Extends(s.candidates, t.candidates, n);
      Extends(s.spent, t.spent, n);
    }
  }

  lemma Extends<T>(s: seq<T>, t: seq<T>, n: nat)
    requires n < |s| && n < |t| && s[..n] == t[..n] && s[n] == t[n]
    ensures s[..n + 1] == t[..n + 1]
  {
    assert s[..n + 1] == s[..n] + [s[n]];
  }

  lemma SameAt<T>(s: seq<T>, t: seq<T>, n: nat)
    requires n < |s| && n < |t| && s[..n + 1] == t[..n + 1]
    ensures s[n] == t[n]
  {
    assert s[n] == s[..n + 1][n] == t[..n + 1][n];
  }

  /** A build that gave up made no further request: it would be beyond the budget or a second
      clean start. */
  lemma GaveUpForGood(o: Oracles, c: Config, s: Trace, issues: seq<Issue>, t: Trace)
    requires TraceOk(o, c, t) && GaveUp(o, c, s, issues) && Agree(s, t, |s.candidates| - 1)
    requires s.history <= t.history
    ensures |t.requests| < |s.history|
  {
    var m := |s.candidates| - 1;
    if m < |t.requests| {
      assert RequestOk(o, t, m);
      assert t.history[..m] == s.history[..m] && t.history[m] == s.history[m];
      if HasCleaned(s) && Repeats(o, s.history[..m], issues) {
        var i: nat :| i < |s.requests| && IsClean(s.requests, i);
        assert s.requests[i] == s.requests[..m][i] == t.requests[..m][i];
        assert IsClean(t.requests, i) && IsClean(t.requests, m);
      }
    }
  }

  /** The gates say the same of the last common candidate. */
  lemma SameRejection(o: Oracles, c: Config, s: Trace, t: Trace)
    requires TraceOk(o, c, s) && TraceOk(o, c, t) && 0 < |s.candidates| <= |t.candidates|
    requires Agree(s, t, |s.candidates| - 1)
    ensures var n := |s.candidates|;
      |s.history| == n <= |t.history| ==> s.history == t.history[..n] && s.spent == t.spent[..n + 1]
  {
    var n := |s.candidates|;
    var m := n - 1;
    if |s.history| == n <= |t.history| {
      assert s.candidates[..n][m] == t.candidates[..n][m] && s.spent[..n][m] == t.spent[..n][m];
      assert JudgedSo(o, c, s, m) && JudgedSo(o, c, t, m);
      Extends(s.history, t.history, m);
      Extends(s.spent, t.spent, n);
      assert s.history == s.history[..n] && s.spent == s.spent[..n + 1];
    }
  }

  /** A build that ended does not have a longer record beside it. */
  lemma EndedIsNoShorter(o: Oracles, c: Config, s: Trace, result: Result, t: Trace)
    requires TraceOk(o, c, s) && TraceOk(o, c, t) && EndOk(o, c, s, result)
    ensures |t.candidates| <= |s.candidates|
  {
    var n := |s.candidates|;
    if n < |t.candidates| {
      assert CandidateOk(o, t, n);
      if n > 0 {
        var m := n - 1;
        assert JudgedSo(o, c, t, m);
        RecordsAgree(o, c, s, t, m);
        SameRejection(o, c, s, t);
        if result.BuildRejected? && GaveUp(o, c, s, result.issues) {
          GaveUpForGood(o, c, s, result.issues, t);
        } else if result.BuildFailed? && Unanswered(o, s) {
          LastRequest(o, c, s, t);
        } else {
          SameAt(s.candidates, t.candidates, m);
          SameAt(s.spent, t.spent, m);
        }
      }
    }
  }

  /** After the same rejections the same is asked. */
  lemma LastRequest(o: Oracles, c: Config, s: Trace, t: Trace)
    requires TraceOk(o, c, s) && TraceOk(o, c, t) && s.history <= t.history
    requires 0 < |s.candidates| == |s.history| == |s.requests| <= |t.requests| && Agree(s, t, |s.candidates| - 1)
    ensures s.requests == t.requests[..|s.requests|]
  {
    var n := |s.candidates|;
    var m := n - 1;
    assert s.candidates[..n][m] == t.candidates[..n][m];
    assert RequestOk(o, s, m) && RequestOk(o, t, m);
    assert s.history[..m] == t.history[..m] && s.history[..n] == t.history[..n] && s.history[m] == t.history[m];
    Extends(s.requests, t.requests, m);
    assert s.requests == s.requests[..n];
  }

  lemma EndsOneWay(o: Oracles, c: Config, n: nat, source: Source, reviews: nat, a: Result, b: Result)
    requires Ends(o, c, n, source, reviews, a) && Ends(o, c, n, source, reviews, b)
    ensures a == b && !Judge(o, c, n, source, reviews).0.Rejected?
  {
  }

  /** A candidate that ended one record was not rejected in another. */
  lemma SameLength(o: Oracles, c: Config, s: Trace, first: Result, t: Trace)
    requires TraceOk(o, c, s) && EndOk(o, c, s, first) && TraceOk(o, c, t)
    requires s.candidates == t.candidates != [] && Agree(s, t, |s.candidates| - 1)
    ensures |t.history| <= |s.history|
  {
    var n := |s.candidates|;
    var m := n - 1;
    assert m < |t.history| ==> JudgedSo(o, c, t, m);
    SameAt(s.spent, t.spent, m);
  }

  lemma SameEnd(o: Oracles, c: Config, s: Trace, first: Result, t: Trace, second: Result)
    requires TraceOk(o, c, s) && EndOk(o, c, s, first) && TraceOk(o, c, t) && EndOk(o, c, t, second)
    requires s.candidates == t.candidates != [] && Agree(s, t, |s.candidates| - 1)
    ensures s == t && first == second
  {
    var n := |s.candidates|;
    SameLength(o, c, s, first, t);
    SameLength(o, c, t, second, s);
    if |s.history| == n {
      SameRejection(o, c, s, t);
      assert t.history[..n] == t.history && t.spent[..n + 1] == t.spent;
      SameLastRequest(o, c, s, first, t, second);
    } else {
      SameWhenEnded(o, c, s, first, t, second);
    }
  }

  lemma SameLastRequest(o: Oracles, c: Config, s: Trace, first: Result, t: Trace, second: Result)
    requires TraceOk(o, c, s) && EndOk(o, c, s, first) && TraceOk(o, c, t) && EndOk(o, c, t, second)
    requires s.candidates == t.candidates != [] && Agree(s, t, |s.candidates| - 1)
    requires |s.history| == |s.candidates| && s.history == t.history && s.spent == t.spent
    ensures s == t && first == second
  {
    var n := |s.candidates|;
    if first.BuildRejected? {
      GaveUpForGood(o, c, s, first.issues, t);
      assert s.requests == s.requests[..n - 1] && t.requests == t.requests[..n - 1];
    } else {
      if second.BuildRejected? { GaveUpForGood(o, c, t, second.issues, s); }
      LastRequest(o, c, s, t);
      assert t.requests == t.requests[..n];
    }
  }

  lemma SameWhenEnded(o: Oracles, c: Config, s: Trace, first: Result, t: Trace, second: Result)
    requires TraceOk(o, c, s) && EndOk(o, c, s, first) && TraceOk(o, c, t) && EndOk(o, c, t, second)
    requires s.candidates == t.candidates != [] && Agree(s, t, |s.candidates| - 1)
    requires |s.history| == |t.history| == |s.candidates| - 1
    ensures s == t && first == second
  {
    var n := |s.candidates|;
    var m := n - 1;
    assert s.history == s.history[..m] && t.history == t.history[..m];
    assert s.requests == s.requests[..m] && t.requests == t.requests[..m];
    assert s.spent == s.spent[..n] && t.spent == t.spent[..n];
    EndsOneWay(o, c, n, s.candidates[m], s.spent[m], first, second);
  }

  lemma NothingGenerated(o: Oracles, c: Config, t: Trace, result: Result)
    requires TraceOk(o, c, t) && EndOk(o, c, t, result) && t.candidates == []
    ensures t == Trace([], [], [], [0]) && result == BuildFailed
  {
  }

  lemma SameCandidates(o: Oracles, c: Config, s: Trace, t: Trace)
    requires TraceOk(o, c, s) && TraceOk(o, c, t) && |s.candidates| == |t.candidates| > 0
    ensures s.candidates == t.candidates && Agree(s, t, |s.candidates| - 1)
  {
    var n := |s.candidates|;
    RecordsAgree(o, c, s, t, n - 1);
    assert s.candidates == s.candidates[..n] && t.candidates == t.candidates[..n];
  }

  /** What a build records and returns is determined by its oracles: nothing in the record can be
      made up. */
  lemma BuildIsDetermined(o: Oracles, c: Config, s: Trace, first: Result, t: Trace, second: Result)
    requires TraceOk(o, c, s) && EndOk(o, c, s, first)
    requires TraceOk(o, c, t) && EndOk(o, c, t, second)
    ensures s == t && first == second
  {
    EndedIsNoShorter(o, c, s, first, t);
    EndedIsNoShorter(o, c, t, second, s);
    if s.candidates == [] {
      NothingGenerated(o, c, s, first);
      NothingGenerated(o, c, t, second);
    } else {
      SameCandidates(o, c, s, t);
      SameEnd(o, c, s, first, t, second);
    }
  }
}
