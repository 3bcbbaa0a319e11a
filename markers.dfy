/** `C.bindMarkerEvent` (identical in both Leaflet wrappers). */
module Markers {
  import opened JsValues
  import opened AppUtil

  /** The event listeners of a Leaflet layer, by event name, in registration order. */
  class Marker {
    var handlers: map<string, seq<nat>>

    constructor (handlers: map<string, seq<nat>>)
      ensures this.handlers == handlers
    {
      this.handlers := handlers;
    }
  }

  /** The listeners an options object supplies: function values under marker event names. */
  function Supplied(props: map<string, JsValue>): (m: map<string, nat>)
    ensures forall k :: k in m ==> k in props && k in MarkerEvents && props[k] == Func(m[k])
    ensures forall k :: k in props && k in MarkerEvents && props[k].Func? ==> k in m
  {
    map k | k in props && Eligible(props, k) :: props[k].id
  }

  /** Listeners after `off(k)` then `on(k, f)` for every supplied `k`. */
  function Rebound(handlers: map<string, seq<nat>>, supplied: map<string, nat>): (r: map<string, seq<nat>>)
    ensures r.Keys == handlers.Keys + supplied.Keys
    ensures forall k :: k in supplied ==> r[k] == [supplied[k]]
    ensures forall k :: k in handlers && k !in supplied ==> r[k] == handlers[k]
  {
    map k | k in handlers.Keys + supplied.Keys ::
      if k in supplied then [supplied[k]] else handlers[k]
  }

  /**
   * `C.bindMarkerEvent(marker, event)`: when `event` is an object, each own
   * key naming a marker event whose value is a function replaces the
   * marker's listeners for that event.
   */
  method BindMarkerEvent(marker: Marker, event: JsValue)
    modifies marker
    ensures event.Obj? ==> marker.handlers == Rebound(old(marker.handlers), Supplied(event.props))
    ensures !event.Obj? ==> marker.handlers == old(marker.handlers)
  {
    // arrays and `null` are objects too, but have no keys naming an event
    if event.Obj? {
      var props := event.props;
      var pending := props.Keys;
      ghost var h0 := marker.handlers;
      while pending != {}
        invariant pending <= props.Keys
        invariant forall k :: k in marker.handlers <==> k in h0 || (k !in pending && Eligible(props, k))
        invariant forall k :: k !in pending && Eligible(props, k) ==> marker.handlers[k] == [props[k].id]
        invariant forall k :: k in h0 && !(k !in pending && Eligible(props, k)) ==> marker.handlers[k] == h0[k]
        decreases pending
      {
        var index :| index in pending;
        if Eligible(props, index) {
          marker.handlers := marker.handlers[index := [props[index].id]];
        }
        pending := pending - {index};
      }
      var expected := Rebound(h0, Supplied(props));
      assert marker.handlers.Keys == expected.Keys;
      assert forall k :: k in expected ==> marker.handlers[k] == expected[k];
    }
  }

  /** `checkMarkerEvent(index)` and `typeof event[index] === 'function'`. */
  predicate Eligible(props: map<string, JsValue>, k: string)
  {
    k in props && CheckMarkerEvent(Str(k)) && TypeOf(props[k]) == "function"
  }

  /** Binding the same options twice leaves the listeners as binding once. */
  lemma ReboundIdempotent(handlers: map<string, seq<nat>>, props: map<string, JsValue>)
    ensures Rebound(Rebound(handlers, Supplied(props)), Supplied(props)) == Rebound(handlers, Supplied(props))
  {
  }
}
