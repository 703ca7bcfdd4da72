/**
 * `Signal`: an array of listeners and a lookup from each bound function to
 * the position it was pushed at, which `unbind` uses to splice it out.
 */
module Signals {
  import opened Wrappers

  /** A listener function, identified by its object identity. */
  type Fn = nat

  /** The object a listener is bound to. */
  type Receiver = nat

  /** What `bind` pushes: the function itself, or a new function bound to a truthy `self`. */
  datatype Listener = Plain(fn: Fn) | BoundTo(fn: Fn, receiver: Receiver)

  /** One call made by `dispatch`: the listener and the argument it receives. */
  datatype Call<A> = Call(listener: Listener, arg: A)

  /** The two fields of a signal. */
  datatype SignalState = SignalState(listeners: seq<Listener>, lookUp: map<Fn, nat>)

  const Empty := SignalState([], map[])

  /** `self ? event.bind(self) : event`; `None` stands for a falsy `self`. */
  function ListenerFor(event: Fn, self: Option<Receiver>): (l: Listener)
    ensures l.fn == event
  {
    match self
    case None => Plain(event)
    case Some(r) => BoundTo(event, r)
  }

  /** `bind`: record the current length under `event`, then push. */
  function BindState(st: SignalState, event: Fn, self: Option<Receiver>): SignalState {
    SignalState(st.listeners + [ListenerFor(event, self)], st.lookUp[event := |st.listeners|])
  }

  /** `splice(start, 1)`: removes the element at `start`, or nothing when `start` is past the end. */
  function SpliceOne<T>(s: seq<T>, start: nat): (r: seq<T>)
    ensures start < |s| ==> |r| == |s| - 1 && multiset(r) + multiset{s[start]} == multiset(s)
    ensures start >= |s| ==> r == s
  {
    if start < |s| then
      assert s == s[..start] + [s[start]] + s[start + 1..];
      s[..start] + s[start + 1..]
    else s
  }

  /**
   * `unbind` as written: splices at the recorded position, which is
   * `undefined` (so 0) for a key that was never bound, and renumbers nothing.
   */
  function UnbindAsWritten(st: SignalState, key: Fn): SignalState {
    var pos := if key in st.lookUp then st.lookUp[key] else 0;
    SignalState(SpliceOne(st.listeners, pos), st.lookUp - {key})
  }

  /**
   * `unbind` with the evident intent: an unknown key changes nothing, and the
   * recorded positions after the removed one move down by one.
   */
  function UnbindState(st: SignalState, key: Fn): SignalState {
    if key !in st.lookUp then st
    else
      var pos := st.lookUp[key];
      SignalState(SpliceOne(st.listeners, pos),
                  map k | k in st.lookUp && k != key :: if st.lookUp[k] > pos then st.lookUp[k] - 1 else st.lookUp[k])
  }

  /** Every recorded position holds a listener made from the function recorded there. */
  ghost predicate Consistent(st: SignalState) {
    forall k :: k in st.lookUp ==> st.lookUp[k] < |st.listeners| && st.listeners[st.lookUp[k]].fn == k
  }

  // ----- bind -----

  /** Binding keeps the lookup consistent and points `event` at the new last listener. */
  lemma BindConsistent(st: SignalState, event: Fn, self: Option<Receiver>)
    requires Consistent(st)
    ensures Consistent(BindState(st, event, self))
    ensures BindState(st, event, self).lookUp[event] == |st.listeners|
  {
    var r := BindState(st, event, self);
    forall k | k in r.lookUp
      ensures r.lookUp[k] < |r.listeners| && r.listeners[r.lookUp[k]].fn == k
    {
      if k != event {
        assert r.listeners[st.lookUp[k]] == st.listeners[st.lookUp[k]];
      }
    }
  }

  /** Binding the same function twice keeps both listeners; the lookup remembers only the second. */
  lemma BindTwice(st: SignalState, event: Fn, self: Option<Receiver>)
    ensures var r := BindState(BindState(st, event, self), event, self);
      |r.listeners| == |st.listeners| + 2 &&
      r.listeners[|st.listeners|] == r.listeners[|st.listeners| + 1] &&
      r.lookUp[event] == |st.listeners| + 1
  {
  }

  /** A signal that has been bound has listeners. */
  lemma BoundHasListeners(st: SignalState, event: Fn, self: Option<Receiver>)
    ensures |BindState(st, event, self).listeners| > 0
  {
  }

  // ----- unbind as written -----

  /** Unbinding the function bound last, with nothing in between, undoes the bind. */
  lemma BindUnbindAsWritten(st: SignalState, event: Fn, self: Option<Receiver>)
    ensures UnbindAsWritten(BindState(st, event, self), event).listeners == st.listeners
    ensures UnbindAsWritten(BindState(st, event, self), event).lookUp == st.lookUp - {event}
  {
    var b := BindState(st, event, self);
    assert b.listeners[..|st.listeners|] == st.listeners;
  }

  /** An unknown key removes the first listener, whoever bound it. */
  lemma UnknownKeyRemovesFirst(st: SignalState, key: Fn)
    requires key !in st.lookUp && |st.listeners| > 0
    ensures UnbindAsWritten(st, key).listeners == st.listeners[1..]
  {
  }

  /**
   * Bind `f` then `g`, unbind `f`, then unbind `g`: the second unbind
   * splices at `g`'s stale position 1 in a list of one, so `g` stays.
   */
  lemma StaleIndexKeepsListener(f: Fn, g: Fn)
    requires f != g
    ensures var two := BindState(BindState(Empty, f, None), g, None);
      var one := UnbindAsWritten(two, f);
      !Consistent(one) && UnbindAsWritten(one, g).listeners == [Plain(g)]
  {
    var two := BindState(BindState(Empty, f, None), g, None);
    var one := UnbindAsWritten(two, f);
    assert one.listeners == [Plain(g)];
    assert one.lookUp[g] == 1;
  }

  // ----- unbind with renumbering -----

  /** Removing an element moves the later ones down by one. */
  lemma SpliceIndex<T>(s: seq<T>, pos: nat, i: nat)
    requires pos < |s| && i < |s| && i != pos
    ensures var j := if i > pos then i - 1 else i;
      j < |SpliceOne(s, pos)| && SpliceOne(s, pos)[j] == s[i]
  {
  }

  /** The renumbering unbind keeps the lookup consistent. */
  lemma UnbindConsistent(st: SignalState, key: Fn)
    requires Consistent(st)
    ensures Consistent(UnbindState(st, key))
  {
    if key in st.lookUp {
      var pos := st.lookUp[key];
      var r := UnbindState(st, key);
      forall k | k in r.lookUp
        ensures r.lookUp[k] < |r.listeners| && r.listeners[r.lookUp[k]].fn == k
      {
        assert k in st.lookUp && k != key;
        assert st.listeners[st.lookUp[k]].fn == k != key == st.listeners[pos].fn;
        SpliceIndex(st.listeners, pos, st.lookUp[k]);
      }
    }
  }

  /**
   * On a consistent signal, the renumbering unbind removes exactly one
   * listener made from `key`, when `key` is bound, and nothing otherwise.
   */
  lemma UnbindRemovesOwn(st: SignalState, key: Fn)
    requires Consistent(st)
    ensures key in st.lookUp ==>
      |UnbindState(st, key).listeners| == |st.listeners| - 1 &&
      exists l: Listener :: l.fn == key && multiset(UnbindState(st, key).listeners) + multiset{l} == multiset(st.listeners)
    ensures key !in st.lookUp ==> UnbindState(st, key) == st
    ensures UnbindState(st, key).lookUp.Keys == st.lookUp.Keys - {key}
  {
    if key in st.lookUp {
      var l := st.listeners[st.lookUp[key]];
      assert l.fn == key && multiset(UnbindState(st, key).listeners) + multiset{l} == multiset(st.listeners);
    }
  }

  /** Unbinding a function bound last undoes the bind here too. */
  lemma BindUnbind(st: SignalState, event: Fn, self: Option<Receiver>)
    requires Consistent(st)
    ensures UnbindState(BindState(st, event, self), event).listeners == st.listeners
    ensures UnbindState(BindState(st, event, self), event).lookUp == st.lookUp - {event}
  {
    var b := BindState(st, event, self);
    assert b.listeners[..|st.listeners|] == st.listeners;
    forall k | k in st.lookUp && k != event
      ensures b.lookUp[k] <= |st.listeners|
    {
    }
  }

  /** The second unbind of the stale-index scenario now removes `g`. */
  lemma RenumberedScenario(f: Fn, g: Fn)
    requires f != g
    ensures var two := BindState(BindState(Empty, f, None), g, None);
      UnbindState(UnbindState(two, f), g) == Empty
  {
    var two := BindState(BindState(Empty, f, None), g, None);
    var one := UnbindState(two, f);
    assert one.listeners == [Plain(g)];
    assert one.lookUp == map[g := 0];
  }

  /** A signal: the listener array and the lookup map, both updated in place. */
  class Signal {
    var listeners: seq<Listener>
    var lookUp: map<Fn, nat>

    ghost function State(): SignalState
      reads this
    {
      SignalState(listeners, lookUp)
    }

    constructor ()
      ensures State() == Empty
    {
      listeners := [];
      lookUp := map[];
    }

    method Bind(event: Fn, self: Option<Receiver>)
      modifies this
      ensures State() == BindState(old(State()), event, self)
    {
      lookUp := lookUp[event := |listeners|];
      var resFun := if self.Some? then BoundTo(event, self.value) else Plain(event);
      listeners := listeners + [resFun];
    }

    /** `unbind`, renumbering the positions recorded after the removed one. */
    method Unbind(key: Fn)
      modifies this
      ensures State() == UnbindState(old(State()), key)
    {
      if key in lookUp {
        var pos := lookUp[key];
        if pos < |listeners| {
          listeners := listeners[..pos] + listeners[pos + 1..];
        }
        lookUp := map k | k in lookUp && k != key :: if lookUp[k] > pos then lookUp[k] - 1 else lookUp[k];
      }
    }

    /** `dispatch`: each listener present at the start is called once, in order, with `key`. */
    method Dispatch<A>(key: A) returns (calls: seq<Call<A>>)
      ensures |calls| == |listeners|
      ensures forall i :: 0 <= i < |calls| ==> calls[i] == Call(listeners[i], key)
      ensures calls == [] <==> !HasListeners()
    {
      calls := [];
      var len := |listeners|;
      var i := 0;
      while i < len
        invariant 0 <= i <= len
        invariant |calls| == i
        invariant forall j :: 0 <= j < i ==> calls[j] == Call(listeners[j], key)
      {
        calls := calls + [Call(listeners[i], key)];
        i := i + 1;
      }
    }

    /** `hasListeners` */
    predicate HasListeners()
      reads this
    {
      |listeners| > 0
    }
  }
}
