/**
 * The System Notify page of the bulk notify controller: a fixed table of device
 * parameter ids, four numeric spin inputs and seventeen False/True selectors bound to
 * those ids, and the three operations on them (Toggle All, Apply, Load).
 *
 * Widgets are abstracted to integer cells: a spin input holds its value, a selector
 * its selection index (0 = "False", 1 = "True").  The worker threads and the
 * `wx.CallAfter` hand-offs are collapsed into sequential methods.
 */
module BulkNotify {
  import opened Wrappers
  import opened PyInt

  // ---------------------------------------------------------------------------
  // The id table
  // ---------------------------------------------------------------------------

  const CpuUseTh := "343@i"
  const CpuUseDur := "344@i"
  const CpuUseResDur := "345@i"
  const DiskUseTh := "219@i"

  /** Ids of the spin inputs, in the order they enter the `spin_inputs` dict. */
  const SpinIds: seq<string> := [CpuUseTh, CpuUseDur, CpuUseResDur, DiskUseTh]

  /** The notification selectors: label and id, in dict insertion order. */
  const Notifications: seq<(string, string)> := [
    ("CPU Usage too high", "850.2@i"),
    ("CPU Temperature too high", "850.3@i"),
    ("Memory Usage too high", "850.4@i"),
    ("FPGA temperature fabric too high", "850.5@i"),
    ("FPGA temperature BR too high", "850.6@i"),
    ("FPGA temperature TR too high", "850.7@i"),
    ("FPGA temperature BL too high", "850.8@i"),
    ("FPGA temperature TL too high", "850.9@i"),
    ("NTP Error", "850.18@i"),
    ("CPU Load too high", "850.19@i"),
    ("NTP Unsynchronised", "850.20@i"),
    ("SSD Critical Warning", "850.21@i"),
    ("High lifetime disk usage", "850.23@i"),
    ("Genlock REF 1 Missing", "850.24@i"),
    ("Genlock REF 2 Missing", "850.25@i"),
    ("Serial FVH 1 Missing", "850.26@i"),
    ("Serial FVH 2 Missing", "850.27@i")
  ]

  /** The ids of a label/id table, in table order. */
  function IdsOf(table: seq<(string, string)>): (ids: seq<string>)
    ensures |ids| == |table|
    ensures forall i :: 0 <= i < |table| ==> ids[i] == table[i].1
  {
    seq(|table|, i requires 0 <= i < |table| => table[i].1)
  }

  /** Ids of the selectors, in the order they enter the `comboboxes` dict. */
  const NotificationIds: seq<string> := IdsOf(Notifications)

  /** Every id names one control, and none holds the '/' that ends the id in a URL. */
  predicate WellFormedIds(ids: seq<string>) {
    && (forall i, j :: 0 <= i < j < |ids| ==> ids[i] != ids[j])
    && (forall i :: 0 <= i < |ids| ==> '/' !in ids[i])
  }

  /** The selector ids, as the notification table lists them. */
  const ListedIds: seq<string> := [
    "850.2@i", "850.3@i", "850.4@i", "850.5@i", "850.6@i", "850.7@i", "850.8@i", "850.9@i",
    "850.18@i", "850.19@i", "850.20@i", "850.21@i", "850.23@i", "850.24@i", "850.25@i",
    "850.26@i", "850.27@i"]

  lemma NotificationIdsListed()
    ensures NotificationIds == ListedIds
  {
  }

  /** Two well-formed id lists with no id in common join into a well-formed list. */
  lemma WellFormedJoin(a: seq<string>, b: seq<string>)
    requires WellFormedIds(a) && WellFormedIds(b)
    requires forall i, j :: 0 <= i < |a| && 0 <= j < |b| ==> a[i] != b[j]
    ensures WellFormedIds(a + b)
  {
    var ab := a + b;
    forall i, j | 0 <= i < j < |ab|
      ensures ab[i] != ab[j]
    {
      if j < |a| {
        assert ab[i] == a[i] && ab[j] == a[j];
      } else if i < |a| {
        assert ab[i] == a[i] && ab[j] == b[j - |a|];
      } else {
        assert ab[i] == b[i - |a|] && ab[j] == b[j - |a|];
      }
    }
    forall i | 0 <= i < |ab|
      ensures '/' !in ab[i]
    {
      if i < |a| {
        assert ab[i] == a[i];
      } else {
        assert ab[i] == b[i - |a|];
      }
    }
  }

  lemma SpinIdsWellFormed()
    ensures WellFormedIds(SpinIds)
  {
  }

  /** The selector ids with a one-digit and with a two-digit index. */
  const OneDigitIds: seq<string> :=
    ["850.2@i", "850.3@i", "850.4@i", "850.5@i", "850.6@i", "850.7@i", "850.8@i", "850.9@i"]
  const TwoDigitIds: seq<string> := [
    "850.18@i", "850.19@i", "850.20@i", "850.21@i", "850.23@i", "850.24@i", "850.25@i",
    "850.26@i", "850.27@i"]

  lemma ListedIdsSplit()
    ensures ListedIds == OneDigitIds + TwoDigitIds
  {
  }

  lemma OneDigitIdsWellFormed()
    ensures WellFormedIds(OneDigitIds)
    ensures forall i :: 0 <= i < |OneDigitIds| ==> |OneDigitIds[i]| == 7
  {
  }

  lemma TwoDigitIdsWellFormed()
    ensures WellFormedIds(TwoDigitIds)
    ensures forall i :: 0 <= i < |TwoDigitIds| ==> |TwoDigitIds[i]| == 8
  {
  }

  lemma ListedIdsWellFormed()
    ensures WellFormedIds(ListedIds)
  {
    OneDigitIdsWellFormed();
    TwoDigitIdsWellFormed();
    WellFormedJoin(OneDigitIds, TwoDigitIds);
    ListedIdsSplit();
  }

  /** Spin ids have five characters, selector ids seven or eight. */
  lemma SpinIdsNotListed()
    ensures forall i, j :: 0 <= i < |SpinIds| && 0 <= j < |ListedIds| ==> SpinIds[i] != ListedIds[j]
  {
    assert forall i :: 0 <= i < |SpinIds| ==> |SpinIds[i]| == 5;
    assert forall j :: 0 <= j < |ListedIds| ==> |ListedIds[j]| >= 7;
  }

  lemma ListedTableWellFormed()
    ensures WellFormedIds(SpinIds + ListedIds)
  {
    SpinIdsWellFormed();
    ListedIdsWellFormed();
    SpinIdsNotListed();
    WellFormedJoin(SpinIds, ListedIds);
  }

  /** The page's id table binds every control to its own id. */
  lemma TableWellFormed()
    ensures WellFormedIds(SpinIds + NotificationIds)
  {
    NotificationIdsListed();
    ListedTableWellFormed();
  }

  // ---------------------------------------------------------------------------
  // Requests
  // ---------------------------------------------------------------------------

  /** The fixed part of a write request: the device address and the `SET` path. */
  function SetPrefix(ip: string): string {
    "http://" + ip + "/v.api/apis/EV/SET/parameter/"
  }

  /** The fixed part of a read request: the device address and the `GET` path. */
  function GetPrefix(ip: string): string {
    "http://" + ip + "/v.api/apis/EV/GET/parameter/"
  }

  /** The write request for one control: the id, then its value as decimal text. */
  function SetUrl(ip: string, id: string, value: int): string {
    SetPrefix(ip) + id + "/" + IntToString(value)
  }

  /** The read request for one control. */
  function GetUrl(ip: string, id: string): string {
    GetPrefix(ip) + id
  }

  /** A write request is the `SET` prefix, then the id, then a slash, then the
      value's decimal text. */
  lemma SetUrlParts(ip: string, id: string, value: int)
    ensures var url := SetUrl(ip, id, value);
      && SetPrefix(ip) + id + "/" <= url
      && url[|SetPrefix(ip) + id + "/"|..] == IntToString(value)
  {
  }

  /** A read request is the `GET` prefix followed by the id. */
  lemma GetUrlParts(ip: string, id: string)
    ensures GetPrefix(ip) <= GetUrl(ip, id) && GetUrl(ip, id)[|GetPrefix(ip)|..] == id
  {
  }

  /** One write request per control, in order. */
  function SetUrls(ip: string, ids: seq<string>, vals: seq<int>): seq<string>
    requires |ids| == |vals|
  {
    seq(|ids|, i requires 0 <= i < |ids| => SetUrl(ip, ids[i], vals[i]))
  }

  // ---------------------------------------------------------------------------
  // The page as a value
  // ---------------------------------------------------------------------------

  /** What the page holds: spin values, selector selections, and the Toggle All flag. */
  datatype Page = Page(spins: seq<int>, boxes: seq<int>, toggleFlag: bool)

  function Fill(n: nat, v: int): seq<int> {
    seq(n, _ => v)
  }

  /** A fresh page: spin inputs at the widget's initial 0, every selector on "True",
      and the flag set so that the first Toggle All turns everything to "False". */
  function InitialPage(): Page {
    Page(Fill(|SpinIds|, 0), Fill(|NotificationIds|, 1), true)
  }

  /** Toggle All: every selector to 0 if the flag is set, else to 1; then flip the flag. */
  function ToggleAllOf(p: Page): (r: Page)
    ensures r.spins == p.spins && r.toggleFlag == !p.toggleFlag
    ensures |r.boxes| == |p.boxes|
    ensures forall i :: 0 <= i < |r.boxes| ==> r.boxes[i] == if p.toggleFlag then 0 else 1
  {
    p.(boxes := Fill(|p.boxes|, if p.toggleFlag then 0 else 1), toggleFlag := !p.toggleFlag)
  }

  /** Two Toggle Alls give the flag back and leave the spin inputs alone, but leave
      every selector on the same selection: 1 if the flag was set, else 0. */
  lemma TwoToggles(p: Page)
    ensures var q := ToggleAllOf(ToggleAllOf(p));
      && q.toggleFlag == p.toggleFlag
      && q.spins == p.spins
      && q.boxes == Fill(|p.boxes|, if p.toggleFlag then 1 else 0)
  {
  }

  /** Two Toggle Alls restore a page exactly when all its selectors already sit on the
      selection the flag leads back to. */
  lemma TwoTogglesRestoreIff(p: Page)
    ensures ToggleAllOf(ToggleAllOf(p)) == p <==>
            forall i :: 0 <= i < |p.boxes| ==> p.boxes[i] == if p.toggleFlag then 1 else 0
  {
    var v := if p.toggleFlag then 1 else 0;
    if forall i :: 0 <= i < |p.boxes| ==> p.boxes[i] == v {
      assert p.boxes == Fill(|p.boxes|, v);
    }
  }

  /** From a fresh page the first Toggle All turns every selector to "False", and the
      second turns the page back into a fresh one. */
  lemma TogglesFromInitial()
    ensures ToggleAllOf(InitialPage()) == Page(Fill(|SpinIds|, 0), Fill(|NotificationIds|, 0), false)
    ensures ToggleAllOf(ToggleAllOf(InitialPage())) == InitialPage()
  {
  }

  /** Mixed selections are not restored: a selector on "False" under a set flag comes
      back on "True". */
  lemma TwoTogglesForgetMixedSelections()
    ensures var p := Page([], [0, 1], true);
            ToggleAllOf(ToggleAllOf(p)) == Page([], [1, 1], true) != p
  {
    assert Fill(2, 1) == [1, 1];
  }

  /** Every request an Apply sends: the spin inputs first, then the selectors. */
  function ApplyUrls(ip: string, spinIds: seq<string>, boxIds: seq<string>, p: Page): (urls: seq<string>)
    requires |spinIds| == |p.spins| && |boxIds| == |p.boxes|
    ensures |urls| == |spinIds| + |boxIds|
    ensures forall i :: 0 <= i < |spinIds| ==> urls[i] == SetUrl(ip, spinIds[i], p.spins[i])
    ensures forall i :: 0 <= i < |boxIds| ==> urls[|spinIds| + i] == SetUrl(ip, boxIds[i], p.boxes[i])
  {
    SetUrls(ip, spinIds, p.spins) + SetUrls(ip, boxIds, p.boxes)
  }

  /** An Apply on the page's own table: 4 + 17 write requests, the spin inputs first in
      the order 343, 344, 345, 219, then the selectors in table order. */
  lemma ApplyTableOrder(ip: string, p: Page)
    requires |p.spins| == |SpinIds| && |p.boxes| == |NotificationIds|
    ensures var urls := ApplyUrls(ip, SpinIds, NotificationIds, p);
      && |urls| == 21
      && urls[0] == SetUrl(ip, "343@i", p.spins[0])
      && urls[1] == SetUrl(ip, "344@i", p.spins[1])
      && urls[2] == SetUrl(ip, "345@i", p.spins[2])
      && urls[3] == SetUrl(ip, "219@i", p.spins[3])
      && (forall i :: 0 <= i < 17 ==> urls[4 + i] == SetUrl(ip, Notifications[i].1, p.boxes[i]))
  {
  }

  /** On a fresh page Apply writes 0 for every spin input and 1 for every selector. */
  lemma ApplyFreshPage(ip: string)
    ensures var urls := ApplyUrls(ip, SpinIds, NotificationIds, InitialPage());
      && urls[0] == "http://" + ip + "/v.api/apis/EV/SET/parameter/343@i/0"
      && urls[20] == "http://" + ip + "/v.api/apis/EV/SET/parameter/850.27@i/1"
  {
    ApplyTableOrder(ip, InitialPage());
    assert IntToString(0) == "0" && IntToString(1) == "1";
  }

  // ---------------------------------------------------------------------------
  // Replies and their decoding
  // ---------------------------------------------------------------------------

  /** What `json.loads(op.content)` makes of a read reply: not JSON at all, JSON that
      is not an object (it has no `get`), or an object whose "value" field may be missing. */
  datatype Reply = NotJson | NonObject | Object(value: Option<JsonValue>)

  datatype ControlKind = SpinInput | Selector

  /** What one load step does with a control: assign it, show an alert and keep its
      value (caught `ValueError`), or stop the batch with an uncaught exception. */
  datatype Step = Assign(n: int) | Alert | Stop(fault: Fault)

  /** `dict.get("value", None)`. */
  function ValueField(field: Option<JsonValue>): JsonValue {
    match field
    case Some(v) => v
    case None => JNull
  }

  /** One reply decoded as the load loop of the given kind of control decodes it. */
  function Decode(kind: ControlKind, reply: Reply): (s: Step)
    ensures s.Assign? <==> reply.Object? && IntOf(ValueField(reply.value)).Converted?
    ensures s.Assign? ==> s.n == IntOf(ValueField(reply.value)).n
    ensures s.Alert? <==> kind == SpinInput && reply.Object? && IntOf(ValueField(reply.value)) == Raised(ValueError)
  {
    match reply
    case NotJson => Stop(JsonDecodeError)
    case NonObject => Stop(AttributeError)
    case Object(field) =>
      match IntOf(ValueField(field))
      case Converted(n) => Assign(n)
      case Raised(f) => if kind == SpinInput && f == ValueError then Alert else Stop(f)
  }

  /** The two load loops decode alike except on a `ValueError`: a spin input shows an
      alert and keeps its value, a selector stops.  A selector takes any integer, in
      range or not; a missing value or a reply that is no JSON object stops either loop. */
  lemma DecodeSamples()
    ensures Decode(Selector, Object(Some(JInt(7)))) == Assign(7)
    ensures Decode(SpinInput, Object(Some(JString("12")))) == Assign(12)
    ensures Decode(SpinInput, Object(Some(JString("n/a")))) == Alert
    ensures Decode(Selector, Object(Some(JString("n/a")))) == Stop(ValueError)
    ensures Decode(SpinInput, Object(None)) == Stop(TypeError)
    ensures Decode(Selector, Object(Some(JNull))) == Stop(TypeError)
    ensures Decode(SpinInput, NotJson) == Stop(JsonDecodeError)
    ensures Decode(Selector, NonObject) == Stop(AttributeError)
  {
    assert ParseInt("12") == Some(12) by {
      assert Strip("12") == "12";
      assert "12"[..1] == "1" && "1"[..0] == "";
    }
    assert ParseInt("n/a") == None by {
      assert Strip("n/a") == "n/a";
      assert !IsDigit("n/a"[0]);
    }
  }

  /** The last step stopped the batch. */
  predicate Stopped(steps: seq<Step>) {
    |steps| > 0 && steps[|steps| - 1].Stop?
  }

  /** What the reply to a read request does in the load loop of the given kind:
      the request goes out, its reply is decoded. */
  function StepOf(kind: ControlKind, respond: string -> Reply): string -> Step {
    url => Decode(kind, respond(url))
  }

  /** What the replies of one load loop do, in control order: one request per
      control until a reply stops the loop. */
  function LoadSteps(ip: string, outcome: string -> Step, ids: seq<string>): (r: seq<Step>)
    ensures |r| <= |ids|
    ensures forall i :: 0 <= i < |r| ==> r[i] == outcome(GetUrl(ip, ids[i]))
    ensures forall i :: 0 <= i < |r| - 1 ==> !r[i].Stop?
    ensures |r| < |ids| ==> Stopped(r)
  {
    if ids == [] then []
    else
      var step := outcome(GetUrl(ip, ids[0]));
      if step.Stop? then [step] else [step] + LoadSteps(ip, outcome, ids[1..])
  }

  /** The contract of `LoadSteps` determines it: a sequence of steps with the same
      four properties is the same sequence. */
  lemma LoadStepsUnique(ip: string, outcome: string -> Step, ids: seq<string>, s: seq<Step>)
    requires |s| <= |ids|
    requires forall i :: 0 <= i < |s| ==> s[i] == outcome(GetUrl(ip, ids[i]))
    requires forall i :: 0 <= i < |s| - 1 ==> !s[i].Stop?
    requires |s| < |ids| ==> Stopped(s)
    ensures s == LoadSteps(ip, outcome, ids)
  {
    var r := LoadSteps(ip, outcome, ids);
    assert forall k :: 0 <= k < |s| && k < |r| ==> s[k] == r[k];
  }

  /** The read requests of the first `n` controls. */
  function GetUrls(ip: string, ids: seq<string>, n: nat): seq<string>
    requires n <= |ids|
  {
    seq(n, i requires 0 <= i < n => GetUrl(ip, ids[i]))
  }

  lemma GetUrlsNext(ip: string, ids: seq<string>, n: nat)
    requires n < |ids|
    ensures GetUrls(ip, ids, n + 1) == GetUrls(ip, ids, n) + [GetUrl(ip, ids[n])]
  {
  }

  lemma GetUrlsPrefix(ip: string, a: seq<string>, b: seq<string>, n: nat)
    requires n <= |a|
    ensures GetUrls(ip, a, n) == GetUrls(ip, a + b, n)
  {
  }

  lemma GetUrlsAppend(ip: string, a: seq<string>, b: seq<string>, m: nat)
    requires m <= |b|
    ensures GetUrls(ip, a, |a|) + GetUrls(ip, b, m) == GetUrls(ip, a + b, |a| + m)
  {
  }

  /** Cell values after a load loop: a control its step assigns takes the new value,
      every other control keeps its own. */
  function Applied(vals: seq<int>, steps: seq<Step>): seq<int> {
    seq(|vals|, i requires 0 <= i < |vals| =>
      if i < |steps| && steps[i].Assign? then steps[i].n else vals[i])
  }

  /** One more step changes at most the cell it is about. */
  lemma AppliedNext(vals: seq<int>, steps: seq<Step>, step: Step)
    requires |steps| < |vals|
    ensures step.Assign? ==> Applied(vals, steps + [step]) == Applied(vals, steps)[|steps| := step.n]
    ensures !step.Assign? ==> Applied(vals, steps + [step]) == Applied(vals, steps)
  {
  }

  /** Steps that follow the steps `s` of earlier controls, counted from `|s|`. */
  lemma AppliedAfter(vals: seq<int>, s: seq<Step>, b: seq<Step>)
    ensures forall i :: 0 <= i < |vals| ==>
      Applied(vals, b)[i] == if |s| + i < |s + b| && (s + b)[|s| + i].Assign?
                             then (s + b)[|s| + i].n else vals[i]
  {
    forall i | 0 <= i < |vals| && i < |b|
      ensures (s + b)[|s| + i] == b[i]
    {
    }
  }

  /** What a load batch reports: the read requests issued, in order, and what each
      reply did.  The batch ran to its end exactly when the steps are not `Stopped`;
      each `Alert` step is one "Did not get expected value" dialog. */
  datatype LoadReport = LoadReport(requests: seq<string>, steps: seq<Step>)

  datatype Loaded = Loaded(page: Page, report: LoadReport)

  /** A load batch: the spin-input loop, then, unless it stopped, the selector loop. */
  function Load(ip: string, respond: string -> Reply, spinIds: seq<string>, boxIds: seq<string>,
                p: Page): (r: Loaded)
    requires |spinIds| == |p.spins| && |boxIds| == |p.boxes|
    ensures r.page.toggleFlag == p.toggleFlag
    ensures |r.page.spins| == |p.spins| && |r.page.boxes| == |p.boxes|
    ensures |r.report.requests| == |r.report.steps| <= |spinIds| + |boxIds|
  {
    var s := LoadSteps(ip, StepOf(SpinInput, respond), spinIds);
    if Stopped(s) then
      Loaded(p.(spins := Applied(p.spins, s)), LoadReport(GetUrls(ip, spinIds + boxIds, |s|), s))
    else
      var b := LoadSteps(ip, StepOf(Selector, respond), boxIds);
      Loaded(p.(spins := Applied(p.spins, s), boxes := Applied(p.boxes, b)),
             LoadReport(GetUrls(ip, spinIds + boxIds, |s| + |b|), s + b))
  }

  /** What the reply to the read request of control `i` of a batch does, spin inputs
      counted first. */
  function BatchStep(ip: string, respond: string -> Reply, spinIds: seq<string>, boxIds: seq<string>,
                     i: nat): Step
    requires i < |spinIds| + |boxIds|
  {
    Decode(if i < |spinIds| then SpinInput else Selector, respond(GetUrl(ip, (spinIds + boxIds)[i])))
  }

  /** The requests of a load batch: it reads the controls in order, spin inputs
      first, decodes each reply as its kind of control does, and stops after the
      first reply that raises an uncaught exception. */
  lemma LoadReads(ip: string, respond: string -> Reply, spinIds: seq<string>, boxIds: seq<string>,
                  p: Page)
    requires |spinIds| == |p.spins| && |boxIds| == |p.boxes|
    ensures var r := Load(ip, respond, spinIds, boxIds, p).report;
      && |r.steps| <= |spinIds| + |boxIds|
      && r.requests == GetUrls(ip, spinIds + boxIds, |r.steps|)
      && (forall i :: 0 <= i < |r.steps| ==> r.steps[i] == BatchStep(ip, respond, spinIds, boxIds, i))
      && (forall i :: 0 <= i < |r.steps| - 1 ==> !r.steps[i].Stop?)
      && (|r.steps| < |spinIds| + |boxIds| ==> Stopped(r.steps))
  {
  }

  lemma LoadWritesSpins(ip: string, respond: string -> Reply, spinIds: seq<string>, boxIds: seq<string>,
                        p: Page)
    requires |spinIds| == |p.spins| && |boxIds| == |p.boxes|
    ensures var r := Load(ip, respond, spinIds, boxIds, p);
      forall i :: 0 <= i < |spinIds| ==>
        r.page.spins[i] == if i < |r.report.steps| && r.report.steps[i].Assign?
                           then r.report.steps[i].n else p.spins[i]
  {
    var s := LoadSteps(ip, StepOf(SpinInput, respond), spinIds);
    if !Stopped(s) {
      var b := LoadSteps(ip, StepOf(Selector, respond), boxIds);
      assert forall i :: 0 <= i < |s| ==> (s + b)[i] == s[i];
    }
  }

  lemma LoadWritesBoxes(ip: string, respond: string -> Reply, spinIds: seq<string>, boxIds: seq<string>,
                        p: Page)
    requires |spinIds| == |p.spins| && |boxIds| == |p.boxes|
    ensures var r := Load(ip, respond, spinIds, boxIds, p);
      forall i :: 0 <= i < |boxIds| ==>
        r.page.boxes[i] == if |spinIds| + i < |r.report.steps| && r.report.steps[|spinIds| + i].Assign?
                           then r.report.steps[|spinIds| + i].n else p.boxes[i]
  {
    var r := Load(ip, respond, spinIds, boxIds, p);
    var s := LoadSteps(ip, StepOf(SpinInput, respond), spinIds);
    if Stopped(s) {
      assert r.page.boxes == p.boxes && r.report.steps == s;
    } else {
      var b := LoadSteps(ip, StepOf(Selector, respond), boxIds);
      assert r.page.boxes == Applied(p.boxes, b) && r.report.steps == s + b;
      AppliedAfter(p.boxes, s, b);
    }
  }

  /** The page after a load batch: every control the batch assigned takes the
      decoded value, every other keeps its own, and the flag is untouched. */
  lemma LoadWrites(ip: string, respond: string -> Reply, spinIds: seq<string>, boxIds: seq<string>,
                   p: Page)
    requires |spinIds| == |p.spins| && |boxIds| == |p.boxes|
    ensures var r := Load(ip, respond, spinIds, boxIds, p);
      && r.page.toggleFlag == p.toggleFlag
      && |r.page.spins| == |p.spins| && |r.page.boxes| == |p.boxes|
      && (forall i :: 0 <= i < |spinIds| ==>
            r.page.spins[i] == if i < |r.report.steps| && r.report.steps[i].Assign?
                               then r.report.steps[i].n else p.spins[i])
      && (forall i :: 0 <= i < |boxIds| ==>
            r.page.boxes[i] == if |spinIds| + i < |r.report.steps| && r.report.steps[|spinIds| + i].Assign?
                               then r.report.steps[|spinIds| + i].n else p.boxes[i])
  {
    LoadWritesSpins(ip, respond, spinIds, boxIds, p);
    LoadWritesBoxes(ip, respond, spinIds, boxIds, p);
  }

  /** A batch whose first uncaught exception comes at control `k` sends exactly the
      first `k + 1` read requests; every control after `k` keeps its value. */
  lemma LoadStopsAtFirstFault(ip: string, respond: string -> Reply, spinIds: seq<string>,
                              boxIds: seq<string>, p: Page, k: nat)
    requires |spinIds| == |p.spins| && |boxIds| == |p.boxes|
    requires k < |spinIds| + |boxIds|
    requires forall i :: 0 <= i < k ==> !BatchStep(ip, respond, spinIds, boxIds, i).Stop?
    requires BatchStep(ip, respond, spinIds, boxIds, k).Stop?
    ensures var r := Load(ip, respond, spinIds, boxIds, p);
      && r.report.requests == GetUrls(ip, spinIds + boxIds, k + 1)
      && Stopped(r.report.steps)
      && (forall i :: k < i < |spinIds| ==> r.page.spins[i] == p.spins[i])
      && (forall i :: 0 <= i < |boxIds| && k < |spinIds| + i ==> r.page.boxes[i] == p.boxes[i])
  {
    LoadReads(ip, respond, spinIds, boxIds, p);
    LoadWrites(ip, respond, spinIds, boxIds, p);
    var steps := Load(ip, respond, spinIds, boxIds, p).report.steps;
    assert |steps| > k;
    assert steps[k] == BatchStep(ip, respond, spinIds, boxIds, k);
  }

  /** The result of a button handler: the "IP not set" alert, or the batch it ran. */
  datatype Launch<T> = IpNotSet | Ran(result: T)

  // ---------------------------------------------------------------------------
  // The page object
  // ---------------------------------------------------------------------------

  class SystemNotify {
    /** The ids bound to the spin inputs and to the selectors; the dicts never change. */
    const spinIds: seq<string>
    const boxIds: seq<string>
    /** The current value of each spin input and selection of each selector. */
    const spins: array<int>
    const boxes: array<int>
    var toggleFlag: bool

    ghost predicate Valid()
      reads this
    {
      spins.Length == |spinIds| && boxes.Length == |boxIds| && spins != boxes
    }

    function View(): Page
      reads this, spins, boxes
    {
      Page(spins[..], boxes[..], toggleFlag)
    }

    constructor ()
      ensures Valid() && fresh(spins) && fresh(boxes)
      ensures spinIds == SpinIds && boxIds == NotificationIds
      ensures View() == InitialPage()
    {
      spinIds := SpinIds;
      boxIds := NotificationIds;
      spins := new int[|SpinIds|](_ => 0);
      boxes := new int[|NotificationIds|](_ => 1);
      toggleFlag := true;
    }

    /** Toggle All: the selectors and the flag change, the spin inputs do not. */
    method ToggleAll()
      requires Valid()
      modifies this, boxes
      ensures Valid()
      ensures toggleFlag == !old(toggleFlag)
      ensures forall i :: 0 <= i < boxes.Length ==> boxes[i] == if old(toggleFlag) then 0 else 1
      ensures spins[..] == old(spins[..])
      ensures View() == ToggleAllOf(old(View()))
    {
      var i := 0;
      while i < boxes.Length
        invariant 0 <= i <= boxes.Length
        invariant toggleFlag == old(toggleFlag)
        invariant forall j :: 0 <= j < i ==> boxes[j] == if toggleFlag then 0 else 1
      {
        if toggleFlag {
          boxes[i] := 0;
        } else {
          boxes[i] := 1;
        }
        i := i + 1;
      }
      toggleFlag := !toggleFlag;
    }

    /** The apply worker: one write request per control, spin inputs first, each
        carrying the control's current value.  Nothing on the page changes. */
    method ApplyThread(ip: string) returns (urls: seq<string>)
      requires Valid()
      ensures |urls| == spins.Length + boxes.Length
      ensures forall i :: 0 <= i < spins.Length ==> urls[i] == SetUrl(ip, spinIds[i], spins[i])
      ensures forall i :: 0 <= i < boxes.Length ==> urls[spins.Length + i] == SetUrl(ip, boxIds[i], boxes[i])
      ensures urls == ApplyUrls(ip, spinIds, boxIds, View())
    {
      var spinUrls := SetRequests(ip, spinIds, spins);
      var boxUrls := SetRequests(ip, boxIds, boxes);
      urls := spinUrls + boxUrls;
    }

    /** The Apply button: no request at all without a stored IP. */
    method OnApply(storedIp: string) returns (r: Launch<seq<string>>)
      requires Valid()
      ensures r.IpNotSet? <==> storedIp == ""
      ensures r.Ran? ==> r.result == ApplyUrls(storedIp, spinIds, boxIds, View())
    {
      if storedIp == "" {
        return IpNotSet;
      }
      var urls := ApplyThread(storedIp);
      r := Ran(urls);
    }

    /** The load worker: the spin-input loop, then the selector loop unless the
        first one stopped on an uncaught exception. */
    method LoadThread(ip: string, respond: string -> Reply) returns (report: LoadReport)
      requires Valid()
      modifies spins, boxes
      ensures Valid()
      ensures var l := Load(ip, respond, spinIds, boxIds, old(View()));
              View() == l.page && report == l.report
    {
      var spinRequests, spinSteps := LoadCells(ip, StepOf(SpinInput, respond), spinIds, spins);
      GetUrlsPrefix(ip, spinIds, boxIds, |spinSteps|);
      if Stopped(spinSteps) {
        report := LoadReport(spinRequests, spinSteps);
        return;
      }
      var boxRequests, boxSteps := LoadCells(ip, StepOf(Selector, respond), boxIds, boxes);
      GetUrlsAppend(ip, spinIds, boxIds, |boxSteps|);
      report := LoadReport(spinRequests + boxRequests, spinSteps + boxSteps);
    }

    /** The Load button: without a stored IP nothing is requested and nothing changes. */
    method OnLoad(storedIp: string, respond: string -> Reply) returns (r: Launch<LoadReport>)
      requires Valid()
      modifies spins, boxes
      ensures Valid()
      ensures r.IpNotSet? <==> storedIp == ""
      ensures r.IpNotSet? ==> View() == old(View())
      ensures r.Ran? ==> var l := Load(storedIp, respond, spinIds, boxIds, old(View()));
                         View() == l.page && r.result == l.report
    {
      if storedIp == "" {
        return IpNotSet;
      }
      var report := LoadThread(storedIp, respond);
      r := Ran(report);
    }
  }

  /** One apply loop: the write request of each control, in order. */
  method SetRequests(ip: string, ids: seq<string>, cells: array<int>) returns (urls: seq<string>)
    requires cells.Length == |ids|
    ensures |urls| == |ids|
    ensures forall i :: 0 <= i < |ids| ==> urls[i] == SetUrl(ip, ids[i], cells[i])
    ensures urls == SetUrls(ip, ids, cells[..])
  {
    urls := [];
    var i := 0;
    while i < cells.Length
      invariant 0 <= i <= cells.Length
      invariant |urls| == i
      invariant forall j :: 0 <= j < i ==> urls[j] == SetUrl(ip, ids[j], cells[j])
    {
      urls := urls + [SetUrl(ip, ids[i], cells[i])];
      i := i + 1;
    }
  }

  /** One load loop: a read request per control, in order, writing each decoded
      value into its cell as it goes, until a reply stops the loop. */
  method LoadCells(ip: string, outcome: string -> Step, ids: seq<string>, cells: array<int>)
    returns (requests: seq<string>, steps: seq<Step>)
    requires cells.Length == |ids|
    modifies cells
    ensures steps == LoadSteps(ip, outcome, ids)
    ensures requests == GetUrls(ip, ids, |steps|)
    ensures cells[..] == Applied(old(cells[..]), steps)
  {
    ghost var olds := cells[..];
    requests, steps := [], [];
    var i := 0;
    while i < cells.Length
      invariant 0 <= i <= cells.Length
      invariant |steps| == i
      invariant requests == GetUrls(ip, ids, i)
      invariant forall j :: 0 <= j < i ==> steps[j] == outcome(GetUrl(ip, ids[j])) && !steps[j].Stop?
      invariant cells[..] == Applied(olds, steps)
    {
      var url := GetUrl(ip, ids[i]);
      var step := outcome(url);
      AppliedNext(olds, steps, step);
      GetUrlsNext(ip, ids, i);
      requests := requests + [url];
      steps := steps + [step];
      if step.Stop? {
        LoadStepsUnique(ip, outcome, ids, steps);
        return;
      }
      if step.Assign? {
        ghost var before := cells[..];
        cells[i] := step.n;
        assert cells[..] == before[i := step.n];
      }
      i := i + 1;
    }
    LoadStepsUnique(ip, outcome, ids, steps);
  }
}
