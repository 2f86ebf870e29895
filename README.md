# Span context carrier and always-sample sampler

This project models two pure pieces of the openconsensus tracing API and proves
their documented behaviour.

- **ContextUtils** binds the current `Span` to an immutable `io.grpc.Context`
  under one private key, `CONTEXT_SPAN_KEY`. That key has `BlankSpan.INSTANCE` as
  its default. `withValue` derives a new context with the span bound, and
  `getValue` reads the span back. Both reject a null context.
- **AlwaysSampleSampler** is a stateless sampler. `shouldSample` answers `true`
  for every input. `getDescription` and `toString` both return
  `"AlwaysSampleSampler"`.

`io.grpc.Context` is not part of this model. The module `GrpcContext` stands in
for the part of it that `ContextUtils` uses. A context is either the root or one
`(key, value)` override layered over a parent context. `Lookup` walks the chain
towards the root. `Get` is `Key.get`: it returns the key's default when the key is
unbound or its nearest binding holds null. Keys are compared by identity, which the model
represents by the key's `id` alone. `Bindings` is an independent
reference view of a context: its bindings, nearest first. `Lookup` and `Get` are
proved against that view.

Java null is modelled with `Option`, where `None` stands for null. A thrown
exception is modelled as `Err` of a `Result`. `Utils.checkNotNull` is not part of
this model. It is taken to throw a `NullPointerException` carrying its message
(`"context"`).

A null span is accepted by `withValue`, because only the context is
null-checked. What is read back afterwards is decided by `io.grpc.Context.Key.get`,
which turns a null bound value into the key's default. So after
`withValue(c, null)`, `getValue` returns `BlankSpan` and not null. This also hides
any span bound further up the chain. This is how `NullSpanReadsAsBlank` is
stated, and it is why `getValue` never returns null.

## Model

| member | source | states |
|---|---|---|
| GrpcContext.Lookup | api/src/main/java/openconsensus/trace/unsafe/ContextUtils.java:56-58 | the lookup behind `CONTEXT_SPAN_KEY.get` finds nothing exactly when the key is bound nowhere along the chain; otherwise it finds the value of the nearest binding, which may be null |
| GrpcContext.NearestExists | api/src/main/java/openconsensus/trace/unsafe/ContextUtils.java:56-58 | a key bound somewhere along the chain has a most recent binding, so every lookup of a bound key is answered |
| GrpcContext.WithValue | api/src/main/java/openconsensus/trace/unsafe/ContextUtils.java:45-47 | `Context.withValue` adds exactly one layer over the unchanged parent; it does not copy the parent's bindings; the new binding is the one a lookup of that key finds |
| GrpcContext.WithValueKeepsOtherKeys | api/src/main/java/openconsensus/trace/unsafe/ContextUtils.java:46 | every key other than the one written reads the same in the derived context as in the parent |
| GrpcContext.Get | api/src/main/java/openconsensus/trace/unsafe/ContextUtils.java:34-35 | `Key.get` returns the nearest non-null bound value; otherwise it returns the key's default; it is never null when the default is not null |
| ContextUtils.WithValue | api/src/main/java/openconsensus/trace/unsafe/ContextUtils.java:45-47 | fails with the message "context" exactly when the context is null; otherwise the result is a new context over the given parent, one layer deeper, whose span key is bound to the given span (null included) |
| ContextUtils.GetValue | api/src/main/java/openconsensus/trace/unsafe/ContextUtils.java:56-58 | fails exactly when the context is null; otherwise it is never null; it is BlankSpan when no span is bound along the chain, and otherwise the nearest bound span, or BlankSpan when that one is null |
| ContextUtils.RoundTrip | api/src/main/java/openconsensus/trace/unsafe/ContextUtils.java:45-58 | reading a context derived with span `s` yields `s` |
| ContextUtils.DefaultWhenUnbound | api/src/main/java/openconsensus/trace/unsafe/ContextUtils.java:34-35 | `ContextSpanKey` (`CONTEXT_SPAN_KEY`) has BlankSpan as its default, so the root context, and any context with no span bound along its chain, reads as BlankSpan |
| ContextUtils.LatestBindingWins | api/src/main/java/openconsensus/trace/unsafe/ContextUtils.java:45-47 | after two successive bindings, the second span is read |
| ContextUtils.ParentUnchanged | api/src/main/java/openconsensus/trace/unsafe/ContextUtils.java:37-47 | deriving leaves the parent reading what it did; two siblings derived from one parent each read their own span |
| ContextUtils.OnlySpanKeyWritten | api/src/main/java/openconsensus/trace/unsafe/ContextUtils.java:46 | bindings under every other key read the same in the derived context as in the parent |
| ContextUtils.NullSpanReadsAsBlank | api/src/main/java/openconsensus/trace/unsafe/ContextUtils.java:45-46 | a null span is accepted, and afterwards the context reads as the default BlankSpan |
| ContextUtils.NullContextRejected | api/src/main/java/openconsensus/trace/unsafe/ContextUtils.java:45-58 | both operations reject a null context with the message "context", whatever the span |
| ContextUtils.NestedScopes | api/src/main/java/openconsensus/trace/unsafe/ContextUtils.java:45-58 | root reads BlankSpan; child bound to A reads A; grandchild bound to B reads B; the child still reads A |
| AlwaysSampleSampler.ShouldSample | opencensus-shim/src/main/java/openconsensus/opencensusshim/trace/samplers/AlwaysSampleSampler.java:34-44 | the decision is "yes" for every trace id, span id, name and parent links, and for a null parent context or a null hasRemoteParent |
| AlwaysSampleSampler.ShouldSampleIgnoresInputs | opencensus-shim/src/main/java/openconsensus/opencensusshim/trace/samplers/AlwaysSampleSampler.java:29-44 | any two calls, with the same or different arguments, give the same decision |
| AlwaysSampleSampler.ToString | opencensus-shim/src/main/java/openconsensus/opencensusshim/trace/samplers/AlwaysSampleSampler.java:51-54 | the name is the non-empty constant "AlwaysSampleSampler" on every call |
| AlwaysSampleSampler.GetDescription | opencensus-shim/src/main/java/openconsensus/opencensusshim/trace/samplers/AlwaysSampleSampler.java:46-49 | the description equals `toString()`, that is "AlwaysSampleSampler" |

## Left out

- The internals of `io.grpc.Context` are left out because that library is not part of this model. This covers `attach`/`detach`, `current()`, thread-local storage, cancellation and deadlines. Only the immutable key/value chain is modelled.
- `io.grpc.Context` stores values of any type under keys of different types. In this model all the keys of one context share one value type, which is `Span` for `ContextUtils`.
- `io.grpc.Context` stores its bindings in a persistent trie. This model stores them as a parent chain, which gives the same lookups.
- Concurrency and thread safety are left out. The model is sequential. Contexts and the sampler are immutable values, so no call changes any state.
- The internals of `Span`, `BlankSpan`, `SpanContext`, `TraceId` and `SpanId` are left out. They are opaque values, and `BlankSpan` is the one distinguished span.
- The abstract `Sampler` base class, the `Tracer` facade and `Utils.checkNotNull` are not part of this model. The null check is modelled as an error result.
- The sampler's `@Immutable` class with its empty constructor is modelled as a module of functions. It has no fields, so there is no instance state to model.
