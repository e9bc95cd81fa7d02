/**
 * A reference device for the page's two batches: a store of parameter texts by id
 * that performs the write requests an Apply sends and answers the read requests a
 * Load sends with `{"value": <stored text>}`.  It is the partner against which the
 * two batches are checked to be inverse: what Apply writes, Load reads back.
 */
module Device {
  import opened Wrappers
  import opened PyInt
  import opened BulkNotify

  /** The parameters a device holds, as the text they were last set to, by id. */
  type Store = map<string, string>

  /** `s` cut at its first '/'. */
  function SplitAtSlash(s: string): (r: Option<(string, string)>)
    ensures r.Some? <==> '/' in s
    ensures r.Some? ==> s == r.value.0 + "/" + r.value.1 && '/' !in r.value.0
  {
    if s == [] then None
    else if s[0] == '/' then Some(([], s[1..]))
    else
      match SplitAtSlash(s[1..])
      case None => None
      case Some((a, b)) => Some(([s[0]] + a, b))
  }

  /** The id and the value text of a write request to `ip`. */
  function ParseSet(ip: string, url: string): Option<(string, string)> {
    if SetPrefix(ip) <= url then SplitAtSlash(url[|SetPrefix(ip)|..]) else None
  }

  /** The id of a read request to `ip`. */
  function ParseGet(ip: string, url: string): Option<string> {
    if GetPrefix(ip) <= url then Some(url[|GetPrefix(ip)|..]) else None
  }

  /** The store after one request: a write request sets its id, anything else is ignored. */
  function Perform(store: Store, ip: string, url: string): Store {
    match ParseSet(ip, url)
    case Some((id, text)) => store[id := text]
    case None => store
  }

  /** The store after a batch of requests, performed in order. */
  function Serve(store: Store, ip: string, urls: seq<string>): Store {
    if urls == [] then store
    else Perform(Serve(store, ip, urls[..|urls| - 1]), ip, urls[|urls| - 1])
  }

  /** The device's answer to a read request: the stored text as the "value" field, an
      object without it for an unknown id, and no JSON for anything else. */
  function Respond(store: Store, ip: string): string -> Reply {
    url =>
      match ParseGet(ip, url)
      case Some(id) => if id in store then Object(Some(JString(store[id]))) else Object(None)
      case None => NotJson
  }

  lemma {:induction false} SplitAtSlashOfJoin(a: string, b: string)
    requires '/' !in a
    ensures SplitAtSlash(a + "/" + b) == Some((a, b))
  {
    if a != [] {
      assert (a + "/" + b)[1..] == a[1..] + "/" + b;
      SplitAtSlashOfJoin(a[1..], b);
      assert [a[0]] + a[1..] == a;
    }
  }

  /** The device reads back the id and the value text of every write request the page
      builds, provided the id holds no '/'. */
  lemma ParseSetUrl(ip: string, id: string, value: int)
    requires '/' !in id
    ensures ParseSet(ip, SetUrl(ip, id, value)) == Some((id, IntToString(value)))
  {
    var url := SetUrl(ip, id, value);
    assert url == SetPrefix(ip) + (id + "/" + IntToString(value));
    assert url[|SetPrefix(ip)|..] == id + "/" + IntToString(value);
    SplitAtSlashOfJoin(id, IntToString(value));
  }

  /** The device reads back the id of every read request the page builds. */
  lemma ParseGetUrl(ip: string, id: string)
    ensures ParseGet(ip, GetUrl(ip, id)) == Some(id)
  {
    assert GetUrl(ip, id)[|GetPrefix(ip)|..] == id;
  }

  lemma SetUrlsPrefix(ip: string, ids: seq<string>, vals: seq<int>)
    requires |ids| == |vals| > 0
    ensures SetUrls(ip, ids, vals)[..|ids| - 1] == SetUrls(ip, ids[..|ids| - 1], vals[..|ids| - 1])
  {
  }

  lemma SetUrlsJoin(ip: string, a: seq<string>, u: seq<int>, b: seq<string>, v: seq<int>)
    requires |a| == |u| && |b| == |v|
    ensures SetUrls(ip, a, u) + SetUrls(ip, b, v) == SetUrls(ip, a + b, u + v)
  {
  }

  /** After a batch of write requests to distinct ids, each id holds the text of its value. */
  lemma {:induction false} ServeSetUrls(store: Store, ip: string, ids: seq<string>, vals: seq<int>)
    requires |ids| == |vals|
    requires WellFormedIds(ids)
    ensures forall i :: 0 <= i < |ids| ==>
      ids[i] in Serve(store, ip, SetUrls(ip, ids, vals)) &&
      Serve(store, ip, SetUrls(ip, ids, vals))[ids[i]] == IntToString(vals[i])
  {
    if ids != [] {
      var n := |ids| - 1;
      var urls := SetUrls(ip, ids, vals);
      SetUrlsPrefix(ip, ids, vals);
      var (front, frontVals) := (ids[..n], vals[..n]);
      assert WellFormedIds(front);
      ServeSetUrls(store, ip, front, frontVals);
      assert urls[..n] == SetUrls(ip, front, frontVals);
      var earlier := Serve(store, ip, urls[..n]);
      assert urls[n] == SetUrl(ip, ids[n], vals[n]);
      ParseSetUrl(ip, ids[n], vals[n]);
      var after := earlier[ids[n] := IntToString(vals[n])];
      assert Perform(earlier, ip, urls[n]) == after;
      assert Serve(store, ip, urls) == after;
      forall i | 0 <= i < n
        ensures ids[i] in after && after[ids[i]] == IntToString(vals[i])
      {
        assert front[i] == ids[i] && frontVals[i] == vals[i];
        assert ids[i] != ids[n];
      }
    }
  }

  /** A load loop in which every reply assigns a value reads every control and sets it
      to that value. */
  lemma LoadAllAssigned(ip: string, outcome: string -> Step, ids: seq<string>, vals: seq<int>,
                        before: seq<int>)
    requires |ids| == |vals| == |before|
    requires forall i :: 0 <= i < |ids| ==> outcome(GetUrl(ip, ids[i])) == Assign(vals[i])
    ensures |LoadSteps(ip, outcome, ids)| == |ids|
    ensures !Stopped(LoadSteps(ip, outcome, ids))
    ensures Applied(before, LoadSteps(ip, outcome, ids)) == vals
    ensures forall i :: 0 <= i < |ids| ==> LoadSteps(ip, outcome, ids)[i] == Assign(vals[i])
  {
    var s := LoadSteps(ip, outcome, ids);
    assert |s| == |ids|;
  }

  /** A device holding the text of each value answers each read request with a reply
      that either load loop decodes to that value. */
  lemma ReadBack(device: Store, ip: string, kind: ControlKind, ids: seq<string>, vals: seq<int>)
    requires |ids| == |vals|
    requires forall i :: 0 <= i < |ids| ==> ids[i] in device && device[ids[i]] == IntToString(vals[i])
    ensures forall i :: 0 <= i < |ids| ==> StepOf(kind, Respond(device, ip))(GetUrl(ip, ids[i])) == Assign(vals[i])
  {
    forall i | 0 <= i < |ids|
      ensures StepOf(kind, Respond(device, ip))(GetUrl(ip, ids[i])) == Assign(vals[i])
    {
      var reply := Respond(device, ip)(GetUrl(ip, ids[i]));
      ParseGetUrl(ip, ids[i]);
      assert reply == Object(Some(JString(IntToString(vals[i]))));
      IntOfFormatted(vals[i]);
      assert StepOf(kind, Respond(device, ip))(GetUrl(ip, ids[i])) == Decode(kind, reply);
    }
  }

  /** A batch in which every reply assigns a value reads every control and leaves the
      page holding those values. */
  lemma LoadAllAssignedBatch(ip: string, respond: string -> Reply, spinIds: seq<string>,
                             boxIds: seq<string>, p: Page, q: Page)
    requires |spinIds| == |p.spins| == |q.spins| && |boxIds| == |p.boxes| == |q.boxes|
    requires forall i :: 0 <= i < |spinIds| ==> StepOf(SpinInput, respond)(GetUrl(ip, spinIds[i])) == Assign(p.spins[i])
    requires forall i :: 0 <= i < |boxIds| ==> StepOf(Selector, respond)(GetUrl(ip, boxIds[i])) == Assign(p.boxes[i])
    ensures var l := Load(ip, respond, spinIds, boxIds, q);
      && l.page == p.(toggleFlag := q.toggleFlag)
      && l.report.requests == GetUrls(ip, spinIds + boxIds, |spinIds| + |boxIds|)
      && (forall i :: 0 <= i < |l.report.steps| ==> l.report.steps[i].Assign?)
  {
    LoadAllAssigned(ip, StepOf(SpinInput, respond), spinIds, p.spins, q.spins);
    LoadAllAssigned(ip, StepOf(Selector, respond), boxIds, p.boxes, q.boxes);
    var s := LoadSteps(ip, StepOf(SpinInput, respond), spinIds);
    var b := LoadSteps(ip, StepOf(Selector, respond), boxIds);
    AssignedJoin(s, b);
  }

  lemma AssignedJoin(s: seq<Step>, b: seq<Step>)
    requires forall i :: 0 <= i < |s| ==> s[i].Assign?
    requires forall i :: 0 <= i < |b| ==> b[i].Assign?
    ensures forall i :: 0 <= i < |s + b| ==> (s + b)[i].Assign?
  {
    forall i | 0 <= i < |s + b|
      ensures (s + b)[i].Assign?
    {
      if i >= |s| {
        assert (s + b)[i] == b[i - |s|];
      }
    }
  }

  /** After the device has performed an Apply of `p`, each control's id holds the text
      of that control's value. */
  lemma ApplyStores(store: Store, ip: string, spinIds: seq<string>, boxIds: seq<string>, p: Page)
    requires |spinIds| == |p.spins| && |boxIds| == |p.boxes|
    requires WellFormedIds(spinIds + boxIds)
    ensures var device := Serve(store, ip, ApplyUrls(ip, spinIds, boxIds, p));
      && (forall i :: 0 <= i < |spinIds| ==>
            spinIds[i] in device && device[spinIds[i]] == IntToString(p.spins[i]))
      && (forall i :: 0 <= i < |boxIds| ==>
            boxIds[i] in device && device[boxIds[i]] == IntToString(p.boxes[i]))
  {
    var ids, vals := spinIds + boxIds, p.spins + p.boxes;
    var urls := ApplyUrls(ip, spinIds, boxIds, p);
    SetUrlsJoin(ip, spinIds, p.spins, boxIds, p.boxes);
    assert urls == SetUrls(ip, ids, vals);
    ServeSetUrls(store, ip, ids, vals);
    var device := Serve(store, ip, urls);
    forall i | 0 <= i < |spinIds|
      ensures spinIds[i] in device && device[spinIds[i]] == IntToString(p.spins[i])
    {
      assert ids[i] == spinIds[i] && vals[i] == p.spins[i];
    }
    forall i | 0 <= i < |boxIds|
      ensures boxIds[i] in device && device[boxIds[i]] == IntToString(p.boxes[i])
    {
      var j := |spinIds| + i;
      assert ids[j] == boxIds[i] && vals[j] == p.boxes[i];
    }
  }

  /** What an Apply writes, a Load reads back: after the device has performed an
      Apply of page `p`, a Load into any page `q` reads every control, raises nothing,
      shows no alert, and leaves `q` holding the values of `p` (its own flag aside). */
  lemma ApplyThenLoad(store: Store, ip: string, spinIds: seq<string>, boxIds: seq<string>,
                      p: Page, q: Page)
    requires |spinIds| == |p.spins| == |q.spins| && |boxIds| == |p.boxes| == |q.boxes|
    requires WellFormedIds(spinIds + boxIds)
    ensures var device := Serve(store, ip, ApplyUrls(ip, spinIds, boxIds, p));
            var l := Load(ip, Respond(device, ip), spinIds, boxIds, q);
      && l.page == p.(toggleFlag := q.toggleFlag)
      && l.report.requests == GetUrls(ip, spinIds + boxIds, |spinIds| + |boxIds|)
      && (forall i :: 0 <= i < |l.report.steps| ==> l.report.steps[i].Assign?)
  {
    var device := Serve(store, ip, ApplyUrls(ip, spinIds, boxIds, p));
    ApplyStores(store, ip, spinIds, boxIds, p);
    ReadBack(device, ip, SpinInput, spinIds, p.spins);
    ReadBack(device, ip, Selector, boxIds, p.boxes);
    LoadAllAssignedBatch(ip, Respond(device, ip), spinIds, boxIds, p, q);
  }

  /** The round trip on the page's own table, from any device state. */
  lemma ApplyThenLoadTable(store: Store, ip: string, p: Page, q: Page)
    requires |p.spins| == |q.spins| == |SpinIds| && |p.boxes| == |q.boxes| == |NotificationIds|
    ensures var device := Serve(store, ip, ApplyUrls(ip, SpinIds, NotificationIds, p));
            Load(ip, Respond(device, ip), SpinIds, NotificationIds, q).page == p.(toggleFlag := q.toggleFlag)
  {
    TableWellFormed();
    ApplyThenLoad(store, ip, SpinIds, NotificationIds, p, q);
  }
}
