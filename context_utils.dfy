/** openconsensus.trace.unsafe.ContextUtils: binds the current Span to an
    io.grpc.Context under one private key and reads it back. */
module ContextUtils {
  import opened Wrappers
  import opened GrpcContext

  /** A Span, opaque to this module: the distinguished BlankSpan.INSTANCE,
      or any other span, known only by an identity handle. */
  datatype Span = BlankSpan | OtherSpan(handle: nat)

  /** The exception Utils.checkNotNull throws, carrying its message. */
  datatype Error = NullPointer(message: string)

  /** Identity of CONTEXT_SPAN_KEY; being private, no other code holds a key
      with this identity. */
  const SpanKeyId: nat := 0

  /** CONTEXT_SPAN_KEY: created with BlankSpan.INSTANCE as its default. */
  const ContextSpanKey: Key<Span> :=
    Key(SpanKeyId, "openconsensus-trace-span-key", Some(BlankSpan))

  /** withValue: rejects a null context; otherwise derives a new context
      from it in which the span key, and nothing else, is bound to `span`.
      The span itself is not null-checked. */
  function WithValue(context: Option<Context<Span>>, span: Option<Span>): (r: Result<Context<Span>, Error>)
    ensures context.None? <==> r.Err?
    ensures r.Err? ==> r.error == NullPointer("context")
    ensures r.Ok? ==> r.value.Derived? && r.value.parent == context.value
    ensures r.Ok? ==> Depth(r.value) == Depth(context.value) + 1
    ensures r.Ok? ==> Lookup(r.value, ContextSpanKey) == Some(span)
    ensures r.Ok? ==> Bindings(r.value) == [Binding(ContextSpanKey, span)] + Bindings(context.value)
  {
    match context
    case None => Err(NullPointer("context"))
    case Some(c) => Ok(GrpcContext.WithValue(c, ContextSpanKey, span))
  }

  /** getValue: rejects a null context; otherwise the span bound nearest
      to it, or BlankSpan when none is bound (or the nearest one is null),
      so that the answer is never null. */
  function GetValue(context: Option<Context<Span>>): (r: Result<Option<Span>, Error>)
    ensures context.None? <==> r.Err?
    ensures r.Err? ==> r.error == NullPointer("context")
    ensures r.Ok? ==> r.value.Some?
    ensures r.Ok? && Unbound(Bindings(context.value), ContextSpanKey) ==> r.value == Some(BlankSpan)
    ensures r.Ok? ==> forall i :: NearestAt(Bindings(context.value), ContextSpanKey, i) ==>
      r.value == if Bindings(context.value)[i].value.Some? then Bindings(context.value)[i].value else Some(BlankSpan)
  {
    match context
    case None => Err(NullPointer("context"))
    case Some(c) => Ok(Get(ContextSpanKey, c))
  }

  /** Reading back a span just bound returns that span. */
  lemma RoundTrip(c: Context<Span>, s: Span)
    ensures WithValue(Some(c), Some(s)).Ok?
    ensures GetValue(Some(WithValue(Some(c), Some(s)).value)) == Ok(Some(s))
  {
  }

  /** The root context, and any context along whose chain no span was ever
      bound, reads as BlankSpan. */
  lemma DefaultWhenUnbound(c: Context<Span>)
    requires Unbound(Bindings(c), ContextSpanKey)
    ensures GetValue(Some(c)) == Ok(Some(BlankSpan))
    ensures GetValue(Some(Root)) == Ok(Some(BlankSpan))
  {
  }

  /** Of two spans bound one after the other, the later one is read. */
  lemma LatestBindingWins(c: Context<Span>, s1: Option<Span>, s2: Span)
    ensures var c1 := WithValue(Some(c), s1).value;
            GetValue(Some(WithValue(Some(c1), Some(s2)).value)) == Ok(Some(s2))
  {
  }

  /** Deriving a context leaves the parent as it was: it reads the same
      span, and a sibling derived from the same parent reads its own. */
  lemma ParentUnchanged(c: Context<Span>, s1: Span, s2: Span)
    ensures var c1 := WithValue(Some(c), Some(s1)).value;
            var c2 := WithValue(Some(c), Some(s2)).value;
            && c1.parent == c && c2.parent == c
            && GetValue(Some(c1)) == Ok(Some(s1))
            && GetValue(Some(c2)) == Ok(Some(s2))
            && GetValue(Some(c1.parent)) == GetValue(Some(c))
  {
  }

  /** withValue writes the span key only: every other key reads the same in
      the derived context as in its parent. */
  lemma OnlySpanKeyWritten(c: Context<Span>, s: Option<Span>, k: Key<Span>)
    requires k.id != ContextSpanKey.id
    ensures Lookup(WithValue(Some(c), s).value, k) == Lookup(c, k)
    ensures Get(k, WithValue(Some(c), s).value) == Get(k, c)
  {
    WithValueKeepsOtherKeys(c, ContextSpanKey, s, k);
  }

  /** A null span is accepted by withValue; since Key.get turns a null
      binding into the key's default, it then reads as BlankSpan, hiding
      any span bound further up the chain. */
  lemma NullSpanReadsAsBlank(c: Context<Span>)
    ensures WithValue(Some(c), None).Ok?
    ensures GetValue(Some(WithValue(Some(c), None).value)) == Ok(Some(BlankSpan))
  {
  }

  /** Both operations reject a null context with the message "context". */
  lemma NullContextRejected(s: Option<Span>)
    ensures WithValue(None, s) == Err(NullPointer("context"))
    ensures GetValue(None) == Err(NullPointer("context"))
  {
  }

  /** The propagation scenario: a root reads BlankSpan; a child bound to
      span A reads A, a grandchild bound to B reads B, and the child still
      reads A after the grandchild was derived. */
  lemma NestedScopes(a: Span, b: Span)
    ensures GetValue(Some(Root)) == Ok(Some(BlankSpan))
    ensures var c1 := WithValue(Some(Root), Some(a)).value;
            var c2 := WithValue(Some(c1), Some(b)).value;
            GetValue(Some(c1)) == Ok(Some(a)) && GetValue(Some(c2)) == Ok(Some(b))
  {
  }
}
