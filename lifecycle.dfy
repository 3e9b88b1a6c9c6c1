/** Module load and unload of the driver: the kernel resources it acquires
    in order (device number region, character device, device class, one
    device node per minor) and gives back in reverse.

    Each registration call of the kernel is a step whose success is an input.
    What the driver holds is a stack of resource tokens; every acquisition
    and release is recorded in a log, and `Replay` is the reference for what
    a well-ordered log is: a release must always give back the most recent
    acquisition still held. */
module Lifecycle {
  import opened Wrappers

  const MINOR_BASE: nat := 0
  const MINOR_NUM: nat := 1

  datatype Resource =
    | Region(major: nat)                  // alloc_chrdev_region / unregister_chrdev_region
    | CharDev(major: nat)                 // cdev_add / cdev_del
    | DeviceClass                         // class_create / class_destroy
    | DeviceNode(major: nat, minor: nat)  // device_create / device_destroy

  datatype Event = Acquired(res: Resource) | Released(res: Resource)

  /** The nodes for `count` minors starting at `minor`, in creation order. */
  function Nodes(major: nat, minor: nat, count: nat): (r: seq<Resource>)
    ensures |r| == count
    ensures forall i :: 0 <= i < count ==> r[i] == DeviceNode(major, minor + i)
    decreases count
  {
    if count == 0 then [] else [DeviceNode(major, minor)] + Nodes(major, minor + 1, count - 1)
  }

  /** Everything a successful load holds, in acquisition order. */
  function Plan(major: nat): seq<Resource> {
    [Region(major), CharDev(major), DeviceClass] + Nodes(major, MINOR_BASE, MINOR_NUM)
  }

  /** Acquiring `h` front to back. */
  function Acquisitions(h: seq<Resource>): (r: seq<Event>)
    ensures |r| == |h|
  {
    if h == [] then [] else [Acquired(h[0])] + Acquisitions(h[1..])
  }

  /** The log of acquiring `h` registers each element of `h`, in order. */
  lemma {:induction false} AcquisitionsContents(h: seq<Resource>)
    ensures forall i :: 0 <= i < |h| ==> Acquisitions(h)[i] == Acquired(h[i])
    decreases |h|
  {
    if h != [] {
      AcquisitionsContents(h[1..]);
    }
  }

  lemma {:induction false} AcquisitionsAppend(h: seq<Resource>, x: Resource)
    ensures Acquisitions(h + [x]) == Acquisitions(h) + [Acquired(x)]
    decreases |h|
  {
    if h == [] {
      assert [] + [x] == [x];
    } else {
      assert (h + [x])[1..] == h[1..] + [x];
      AcquisitionsAppend(h[1..], x);
    }
  }

  /** Releasing `h` front to back. */
  function Releases(h: seq<Resource>): (r: seq<Event>)
    ensures |r| == |h|
    ensures forall i :: 0 <= i < |h| ==> r[i] == Released(h[i])
  {
    if h == [] then [] else [Released(h[0])] + Releases(h[1..])
  }

  /** Releasing everything in `h`, most recent first. */
  function Unwind(h: seq<Resource>): (r: seq<Event>)
    ensures |r| == |h|
    ensures forall i :: 0 <= i < |h| ==> r[i] == Released(h[|h| - 1 - i])
  {
    if h == [] then [] else [Released(h[|h| - 1])] + Unwind(h[..|h| - 1])
  }

  /** What is held after `log`, starting from `held`, or None when the log
      releases something other than the most recent acquisition still held. */
  function Replay(held: seq<Resource>, log: seq<Event>): Option<seq<Resource>>
    decreases |log|
  {
    if log == [] then Some(held)
    else match log[0]
      case Acquired(x) => Replay(held + [x], log[1..])
      case Released(x) =>
        if held != [] && held[|held| - 1] == x then Replay(held[..|held| - 1], log[1..])
        else None
  }

  /** One step of `Replay` on a log that starts with an acquisition. */
  lemma ReplayAcquired(held: seq<Resource>, x: Resource, tail: seq<Event>)
    ensures Replay(held, [Acquired(x)] + tail) == Replay(held + [x], tail)
  {
    assert ([Acquired(x)] + tail)[1..] == tail;
  }

  /** One step of `Replay` on a log that starts with releasing the top. */
  lemma ReplayReleased(held: seq<Resource>, x: Resource, tail: seq<Event>)
    ensures Replay(held + [x], [Released(x)] + tail) == Replay(held, tail)
  {
    assert ([Released(x)] + tail)[1..] == tail;
    assert (held + [x])[..|held|] == held;
  }

  lemma {:induction false} ReplayAcquisitions(held: seq<Resource>, h: seq<Resource>, rest: seq<Event>)
    ensures Replay(held, Acquisitions(h) + rest) == Replay(held + h, rest)
    decreases |h|
  {
    if h == [] {
      assert Acquisitions(h) + rest == rest;
      assert held + h == held;
    } else {
      var tail := Acquisitions(h[1..]) + rest;
      calc {
        Replay(held, Acquisitions(h) + rest);
        { assert Acquisitions(h) + rest == [Acquired(h[0])] + tail; }
        Replay(held, [Acquired(h[0])] + tail);
        { ReplayAcquired(held, h[0], tail); }
        Replay(held + [h[0]], tail);
        { ReplayAcquisitions(held + [h[0]], h[1..], rest); }
        Replay(held + [h[0]] + h[1..], rest);
        { assert held + [h[0]] + h[1..] == held + h; }
        Replay(held + h, rest);
      }
    }
  }

  /** Unwinding what was pushed on top of `held` gives back exactly `held`. */
  lemma {:induction false} ReplayUnwind(held: seq<Resource>, h: seq<Resource>, rest: seq<Event>)
    ensures Replay(held + h, Unwind(h) + rest) == Replay(held, rest)
    decreases |h|
  {
    if h == [] {
      assert Unwind(h) + rest == rest;
      assert held + h == held;
    } else {
      var n := |h| - 1;
      var tail := Unwind(h[..n]) + rest;
      calc {
        Replay(held + h, Unwind(h) + rest);
        { assert Unwind(h) + rest == [Released(h[n])] + tail;
          assert held + h == (held + h[..n]) + [h[n]]; }
        Replay((held + h[..n]) + [h[n]], [Released(h[n])] + tail);
        { ReplayReleased(held + h[..n], h[n], tail); }
        Replay(held + h[..n], tail);
        { ReplayUnwind(held, h[..n], rest); }
        Replay(held, rest);
      }
    }
  }

  /** Acquiring a sequence and then unwinding it is a well-ordered log that
      leaves nothing held. */
  lemma AcquireThenUnwind(h: seq<Resource>)
    ensures Replay([], Acquisitions(h) + Unwind(h)) == Some([])
  {
    ReplayAcquisitions([], h, Unwind(h));
    assert [] + h == h;
    ReplayUnwind([], h, []);
    assert Unwind(h) + [] == Unwind(h);
  }

  datatype LoadResult = LoadResult(ret: int, held: seq<Resource>, log: seq<Event>)

  /** Acquire `steps` in order on top of `held`; at the first step whose
      outcome is a failure, release everything held, most recent first, and
      report -1. */
  function AcquireInOrder(steps: seq<Resource>, oks: seq<bool>, held: seq<Resource>): (r: LoadResult)
    requires |oks| == |steps|
    ensures r.ret == 0 || r.ret == -1
    ensures r.ret == 0 ==> r.held == held + steps
    ensures r.ret == -1 ==> r.held == []
    decreases |steps|
  {
    if steps == [] then
      assert held + steps == held;
      LoadResult(0, held, [])
    else if !oks[0] then LoadResult(-1, [], Unwind(held))
    else
      var r := AcquireInOrder(steps[1..], oks[1..], held + [steps[0]]);
      assert held + [steps[0]] + steps[1..] == held + steps;
      r.(log := [Acquired(steps[0])] + r.log)
  }

  /** Index of the first failing step, or the number of steps if none fails. */
  function FirstFailure(oks: seq<bool>): (k: nat)
    ensures k <= |oks|
    ensures forall i :: 0 <= i < k ==> oks[i]
    ensures k < |oks| ==> !oks[k]
  {
    if oks == [] || !oks[0] then 0 else 1 + FirstFailure(oks[1..])
  }

  /** When every step succeeds, all of them are held on top of `held`. */
  lemma {:induction false} AcquireInOrderSucceeds(steps: seq<Resource>, oks: seq<bool>, held: seq<Resource>)
    requires |oks| == |steps|
    requires FirstFailure(oks) == |steps|
    ensures AcquireInOrder(steps, oks, held) == LoadResult(0, held + steps, Acquisitions(steps))
    decreases |steps|
  {
    if steps == [] {
      assert held + steps == held;
    } else {
      var s0 := steps[0];
      assert oks[0];
      AcquireInOrderSucceeds(steps[1..], oks[1..], held + [s0]);
      var r := AcquireInOrder(steps[1..], oks[1..], held + [s0]);
      assert AcquireInOrder(steps, oks, held) == r.(log := [Acquired(s0)] + r.log);
      assert held + [s0] + steps[1..] == held + steps;
      assert [Acquired(s0)] + Acquisitions(steps[1..]) == Acquisitions(steps);
    }
  }

  /** When step `k` is the first to fail, the steps before it are acquired
      and then unwound together with `held`, and nothing is left. */
  lemma {:induction false} AcquireInOrderFails(steps: seq<Resource>, oks: seq<bool>, held: seq<Resource>)
    requires |oks| == |steps|
    requires FirstFailure(oks) < |steps|
    ensures var k := FirstFailure(oks);
            AcquireInOrder(steps, oks, held)
              == LoadResult(-1, [], Acquisitions(steps[..k]) + Unwind(held + steps[..k]))
    decreases |steps|
  {
    var k := FirstFailure(oks);
    if !oks[0] {
      assert k == 0;
      assert steps[..k] == [] && held + steps[..k] == held;
      assert Acquisitions(steps[..k]) == [];
    } else {
      var s0 := steps[0];
      assert k == 1 + FirstFailure(oks[1..]);
      AcquireInOrderFails(steps[1..], oks[1..], held + [s0]);
      var r := AcquireInOrder(steps[1..], oks[1..], held + [s0]);
      assert AcquireInOrder(steps, oks, held) == r.(log := [Acquired(s0)] + r.log);
      assert steps[1..][..k - 1] == steps[1..k];
      assert held + [s0] + steps[1..k] == held + steps[..k];
      assert [Acquired(s0)] + Acquisitions(steps[1..k]) == Acquisitions(steps[..k]);
    }
  }

  /** `bcm23_led_init`, with every registration step's outcome given: region,
      cdev, class, then one node per minor. */
  function Load(major: nat, oks: seq<bool>): (r: LoadResult)
    requires |oks| == |Plan(major)|
    ensures r.ret == 0 || r.ret == -1
    ensures r.ret == 0 ==> r.held == Plan(major)
    ensures r.ret == -1 ==> r.held == []
  {
    assert [] + Plan(major) == Plan(major);
    AcquireInOrder(Plan(major), oks, [])
  }

  /** `FirstFailure` is determined by its contract. */
  lemma {:induction false} FirstFailureAt(oks: seq<bool>, k: nat)
    requires k <= |oks|
    requires forall i :: 0 <= i < k ==> oks[i]
    requires k < |oks| ==> !oks[k]
    ensures FirstFailure(oks) == k
    decreases k
  {
    if k > 0 {
      FirstFailureAt(oks[1..], k - 1);
    }
  }

  /** When step `k` of load is the first to fail, the steps before it are
      registered and then unregistered, most recent first. */
  lemma LoadFailsAt(major: nat, oks: seq<bool>, k: nat)
    requires |oks| == |Plan(major)| && k < |oks|
    requires forall i :: 0 <= i < k ==> oks[i]
    requires !oks[k]
    ensures Load(major, oks)
              == LoadResult(-1, [], Acquisitions(Plan(major)[..k]) + Unwind(Plan(major)[..k]))
  {
    var p := Plan(major);
    FirstFailureAt(oks, k);
    AcquireInOrderFails(p, oks, []);
    assert [] + p[..k] == p[..k];
  }

  /** When no step of load fails, every step is registered in order. */
  lemma LoadSucceeds(major: nat, oks: seq<bool>)
    requires |oks| == |Plan(major)|
    requires forall i :: 0 <= i < |oks| ==> oks[i]
    ensures Load(major, oks) == LoadResult(0, Plan(major), Acquisitions(Plan(major)))
  {
    var p := Plan(major);
    FirstFailureAt(oks, |oks|);
    AcquireInOrderSucceeds(p, oks, []);
    assert [] + p == p;
  }

  /** Load succeeds iff every step succeeds; on success it holds region,
      cdev, class and the node(s); on any failure it returns -1 holding
      nothing; either way the log releases in strict reverse order. */
  lemma LoadOutcome(major: nat, oks: seq<bool>)
    requires |oks| == |Plan(major)|
    ensures var r := Load(major, oks);
            && (r.ret == 0 <==> forall i :: 0 <= i < |oks| ==> oks[i])
            && (r.ret == 0 ==> r.held == Plan(major) && r.log == Acquisitions(Plan(major)))
            && (r.ret != 0 ==> r.ret == -1 && r.held == [])
            && Replay([], r.log) == Some(r.held)
  {
    var p := Plan(major);
    var k := FirstFailure(oks);
    if k == |p| {
      AcquireInOrderSucceeds(p, oks, []);
      assert [] + p == p;
      ReplayAcquisitions([], p, []);
      assert Acquisitions(p) + [] == Acquisitions(p);
    } else {
      AcquireInOrderFails(p, oks, []);
      assert [] + p[..k] == p[..k];
      AcquireThenUnwind(p[..k]);
    }
  }

  /** `bcm23_led_exit`: destroy the node(s) in the order of the minor loop,
      then the class, the cdev and the region. */
  function UnloadLog(major: nat): (r: seq<Event>)
    ensures |r| == |Plan(major)|
    ensures forall i :: 0 <= i < |r| ==> r[i].Released?
    ensures forall x :: x in Plan(major) ==> Released(x) in r
  {
    Releases(Nodes(major, MINOR_BASE, MINOR_NUM))
      + [Released(DeviceClass), Released(CharDev(major)), Released(Region(major))]
  }

  /** With one minor, unload is the exact reverse of a successful load. */
  lemma UnloadUnwindsPlan(major: nat)
    ensures UnloadLog(major) == Unwind(Plan(major))
  {
    var p := Plan(major);
    assert p == [Region(major), CharDev(major), DeviceClass, DeviceNode(major, MINOR_BASE)];
  }

  /** Load followed by unload is well ordered and leaves nothing held. */
  lemma LoadThenUnload(major: nat, oks: seq<bool>)
    requires |oks| == |Plan(major)|
    requires Load(major, oks).ret == 0
    ensures Replay([], Load(major, oks).log + UnloadLog(major)) == Some([])
  {
    LoadOutcome(major, oks);
    UnloadUnwindsPlan(major);
    AcquireThenUnwind(Plan(major));
  }

  /** The nodes whose creation succeeded, failures silently skipped. */
  function Created(nodes: seq<Resource>, oks: seq<bool>): (r: seq<Resource>)
    requires |oks| == |nodes|
    ensures forall x :: x in r ==> x in nodes
    ensures forall i :: 0 <= i < |nodes| && oks[i] ==> nodes[i] in r
    ensures forall i :: 0 <= i < |nodes| && !oks[i]
              && (forall j :: 0 <= j < |nodes| && j != i ==> nodes[j] != nodes[i])
              ==> nodes[i] !in r
  {
    if nodes == [] then []
    else (if oks[0] then [nodes[0]] else []) + Created(nodes[1..], oks[1..])
  }

  /** `bcm23_led_init` as written: the result of `device_create` is never
      checked, so the node loop cannot fail. */
  function LoadAsWritten(major: nat, oks: seq<bool>): (r: LoadResult)
    requires |oks| == |Plan(major)|
    ensures r.ret == 0 || r.ret == -1
    ensures r.ret == -1 ==> r.held == []
    ensures oks[0] && oks[1] && oks[2] ==> r.ret == 0
  {
    var p := Plan(major);
    var r := AcquireInOrder(p[..3], oks[..3], []);
    assert oks[0] && oks[1] && oks[2] ==> r.ret == 0 by {
      if oks[0] && oks[1] && oks[2] {
        FirstFailureAt(oks[..3], 3);
        AcquireInOrderSucceeds(p[..3], oks[..3], []);
      }
    }
    if r.ret != 0 then r
    else
      var made := Created(p[3..], oks[3..]);
      LoadResult(0, r.held + made, r.log + Acquisitions(made))
  }

  /** As written, a load whose only node fails holds region, cdev and class
      and reports success. */
  lemma NodeFailureLoadsWithoutNode(major: nat)
    ensures var r := LoadAsWritten(major, [true, true, true, false]);
            r.ret == 0 && r.held == [Region(major), CharDev(major), DeviceClass]
  {
    var oks := [true, true, true, false];
    var p := Plan(major);
    var node := DeviceNode(major, MINOR_BASE);
    assert p[3..] == [node] && oks[3..] == [false];
    assert Created([node], [false]) == [];
    var first := AcquireInOrder(p[..3], oks[..3], []);
    var r := LoadAsWritten(major, oks);
    assert first.ret == 0 && r.held == first.held;
  }

  /** As written, a failing `device_create` is reported as a successful load
      without the node, and the later unload then destroys a node that was
      never created, which the reference rejects. */
  lemma NodeFailureReportedAsSuccess(major: nat)
    ensures var r := LoadAsWritten(major, [true, true, true, false]);
            && r.ret == 0
            && DeviceNode(major, MINOR_BASE) !in r.held
            && Replay(r.held, UnloadLog(major)) == None
  {
    NodeFailureLoadsWithoutNode(major);
    var held := [Region(major), CharDev(major), DeviceClass];
    var log := UnloadLog(major);
    assert log[0] == Released(DeviceNode(major, MINOR_BASE));
    assert Replay(held, log) == None;
  }
}
