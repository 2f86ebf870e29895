/** A minimal stand-in for io.grpc.Context: an immutable chain of
    (key, value) overrides on top of a root, with lookup walking up the
    chain from the given context towards the root. Only the parts that
    Context.withValue and Context.Key.get rely on are modelled. */
module GrpcContext {
  import opened Wrappers

  /** A context key. `id` stands for the object identity by which keys are
      compared: two keys are the same key exactly when their ids agree; `defaultValue` is what Get answers when nothing (or null)
      is bound to the key. */
  datatype Key<V> = Key(id: nat, name: string, defaultValue: Option<V>)

  /** A context: the root, or one binding layered over a parent. A bound
      value may be null (`None`). */
  datatype Context<V> =
    | Root
    | Derived(parent: Context<V>, key: Key<V>, value: Option<V>)

  datatype Binding<V> = Binding(key: Key<V>, value: Option<V>)

  /** Reference view of a context: every binding along its chain, the most
      recent (nearest) first. */
  ghost function Bindings<V>(c: Context<V>): seq<Binding<V>>
  {
    match c
    case Root => []
    case Derived(p, k, v) => [Binding(k, v)] + Bindings(p)
  }

  /** No binding for `k` anywhere in `bs`. */
  ghost predicate Unbound<V>(bs: seq<Binding<V>>, k: Key<V>)
  {
    forall i :: 0 <= i < |bs| ==> bs[i].key.id != k.id
  }

  /** `i` is the position of the most recent binding for `k` in `bs`. */
  ghost predicate NearestAt<V>(bs: seq<Binding<V>>, k: Key<V>, i: int)
  {
    0 <= i < |bs| && bs[i].key.id == k.id && forall j :: 0 <= j < i ==> bs[j].key.id != k.id
  }

  /** A binding for another key in front of `bs` neither creates nor hides
      a binding for `k`; it only shifts positions by one. */
  lemma SkipOtherKey<V>(b: Binding<V>, bs: seq<Binding<V>>, k: Key<V>)
    requires b.key.id != k.id
    ensures Unbound([b] + bs, k) <==> Unbound(bs, k)
    ensures forall i :: NearestAt([b] + bs, k, i) ==> NearestAt(bs, k, i - 1)
  {
    var cs := [b] + bs;
    assert forall i :: 0 < i < |cs| ==> cs[i] == bs[i - 1];
    if Unbound(cs, k) {
      forall i | 0 <= i < |bs| ensures bs[i].key.id != k.id {
        assert cs[i + 1] == bs[i];
      }
    }
    forall i | NearestAt(cs, k, i) ensures NearestAt(bs, k, i - 1) {
      assert i != 0;
      forall j | 0 <= j < i - 1 ensures bs[j].key.id != k.id {
        assert cs[j + 1] == bs[j];
      }
    }
  }

  /** Number of override layers above the root. */
  function Depth<V>(c: Context<V>): nat
  {
    match c
    case Root => 0
    case Derived(p, _, _) => Depth(p) + 1
  }

  /** The binding lookup behind Key.get: the value bound to `k` nearest to
      `c` (`Some`, possibly holding null), or `None` when `k` is bound
      nowhere along the chain. */
  function Lookup<V>(c: Context<V>, k: Key<V>): (r: Option<Option<V>>)
    ensures r.None? <==> Unbound(Bindings(c), k)
    ensures forall i :: NearestAt(Bindings(c), k, i) ==> r == Some(Bindings(c)[i].value)
  {
    match c
    case Root => None
    case Derived(p, k', v) =>
      if k'.id == k.id then
        assert Bindings(c)[0].key.id == k.id;
        Some(v)
      else
        SkipOtherKey(Binding(k', v), Bindings(p), k);
        Lookup(p, k)
  }

  /** Whenever `k` is bound somewhere along the chain, there is a most
      recent such binding. */
  lemma {:induction false} NearestExists<V>(bs: seq<Binding<V>>, k: Key<V>)
    requires !Unbound(bs, k)
    ensures exists i :: NearestAt(bs, k, i)
  {
    if bs[0].key.id == k.id {
      assert NearestAt(bs, k, 0);
    } else {
      NearestExists(bs[1..], k);
      var i :| NearestAt(bs[1..], k, i);
      assert NearestAt(bs, k, i + 1);
    }
  }

  /** Context.withValue: a new context whose only difference from `c` is
      the binding of `k` to `v`; `c` itself becomes its parent. */
  function WithValue<V>(c: Context<V>, k: Key<V>, v: Option<V>): (d: Context<V>)
    ensures d.Derived? && d.parent == c
    ensures Depth(d) == Depth(c) + 1
    ensures Bindings(d) == [Binding(k, v)] + Bindings(c)
    ensures Lookup(d, k) == Some(v)
  {
    Derived(c, k, v)
  }

  /** Deriving a context with a binding for `k` leaves every other key
      reading exactly as it does in the parent. */
  lemma WithValueKeepsOtherKeys<V>(c: Context<V>, k: Key<V>, v: Option<V>, other: Key<V>)
    requires other.id != k.id
    ensures Lookup(WithValue(c, k, v), other) == Lookup(c, other)
    ensures Get(other, WithValue(c, k, v)) == Get(other, c)
  {
  }

  /** Key.get: the value bound to `k` nearest to `c`, or the key's default
      when `k` is unbound or the nearest binding holds null. */
  function Get<V>(k: Key<V>, c: Context<V>): (r: Option<V>)
    ensures Unbound(Bindings(c), k) ==> r == k.defaultValue
    ensures forall i :: NearestAt(Bindings(c), k, i) && Bindings(c)[i].value.Some? ==> r == Bindings(c)[i].value
    ensures forall i :: NearestAt(Bindings(c), k, i) && Bindings(c)[i].value.None? ==> r == k.defaultValue
    ensures k.defaultValue.Some? ==> r.Some?
  {
    match Lookup(c, k)
    case Some(Some(v)) => Some(v)
    case _ => k.defaultValue
  }
}
