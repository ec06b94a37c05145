/**
 * The `#[instrument]` attribute of game-metrics-macro/src/lib.rs, on abstract
 * syntax: the attribute arguments and the annotated item are small
 * datatypes, and a function body is a block of statements whose only
 * statements of interest are the span guard and nested blocks.
 */
module Instrument {
  import opened Wrappers

  /** A literal in an attribute argument (`syn::Lit`). */
  datatype Lit = Str(value: string) | ByteStr(bytes: seq<nat>) | Char(c: char) | Int(digits: string) | Float(digits: string) | Bool(b: bool)

  /** A path: its `::`-separated segments. */
  type Path = seq<string>

  /** `syn::Meta`: a bare path, a list `path(...)`, or `path = lit`. */
  datatype Meta = PathMeta(path: Path) | List(path: Path, nested: seq<NestedMeta>) | NameValue(path: Path, lit: Lit)

  /** `syn::NestedMeta`: one argument of the attribute. */
  datatype NestedMeta = MetaArg(meta: Meta) | LitArg(lit: Lit)

  /** `Path::is_ident(ident)`: the path is that single identifier. */
  predicate IsIdent(p: Path, ident: string)
  {
    p == [ident]
  }

  /** A statement of a function body. */
  datatype Stmt =
    | SpanGuard(binding: string, spanName: string)  // `let binding = game_metrics::Span::new(spanName);`
    | Nested(block: Block)                          // a block in statement or tail position
    | Other(code: string)                           // any other statement, kept as it is

  datatype Block = Block(stmts: seq<Stmt>)

  datatype Signature = Signature(ident: string, inputs: seq<string>, output: string)

  datatype ItemFn = ItemFn(attrs: seq<string>, vis: string, sig: Signature, block: Block)

  /** The annotated item: a function, or any other kind of item. */
  datatype Item = Fn(f: ItemFn) | NotFn(kind: string)

  /** The macro's result: the emitted item, or a compile-time panic. */
  datatype Expansion = Emitted(item: Item) | Panicked(message: string)

  const UnsupportedItem: string := "unsupported type for the #[instrument] macro"

  /** The variable the span guard is bound to. */
  const GuardBinding: string := "__span"

  /** The closure given to `find_map`: the string of a `name = "<str>"` argument, and nothing for any other. */
  function NameOf(arg: NestedMeta): (r: Option<string>)
    ensures r.Some? <==> arg.MetaArg? && arg.meta.NameValue? && IsIdent(arg.meta.path, "name") && arg.meta.lit.Str?
    ensures r.Some? ==> r.value == arg.meta.lit.value
  {
    match arg
    case MetaArg(NameValue(path, Str(s))) => if IsIdent(path, "name") then Some(s) else None
    case _ => None
  }

  /** `attrs.iter().find_map(...)`: the string of the first `name = "<str>"` argument. */
  function NameOverride(attrs: seq<NestedMeta>): (r: Option<string>)
    ensures r.None? <==> forall i :: 0 <= i < |attrs| ==> NameOf(attrs[i]).None?
    ensures r.Some? ==> exists i :: 0 <= i < |attrs| && NameOf(attrs[i]) == r && forall j :: 0 <= j < i ==> NameOf(attrs[j]).None?
  {
    if attrs == [] then None
    else if NameOf(attrs[0]).Some? then NameOf(attrs[0])
    else
      var r := NameOverride(attrs[1..]);
      assert r.Some? ==> exists i :: 0 <= i < |attrs| && NameOf(attrs[i]) == r && forall j :: 0 <= j < i ==> NameOf(attrs[j]).None? by {
        if r.Some? {
          var i :| 0 <= i < |attrs[1..]| && NameOf(attrs[1..][i]) == r && forall j :: 0 <= j < i ==> NameOf(attrs[1..][j]).None?;
          assert NameOf(attrs[i + 1]) == r;
          forall j | 0 <= j < i + 1 ensures NameOf(attrs[j]).None? {
            if j > 0 { assert attrs[j] == attrs[1..][j - 1]; }
          }
        }
      }
      assert r.None? ==> forall i :: 0 <= i < |attrs| ==> NameOf(attrs[i]).None? by {
        if r.None? {
          forall i | 0 <= i < |attrs| ensures NameOf(attrs[i]).None? {
            if i > 0 { assert attrs[i] == attrs[1..][i - 1]; }
          }
        }
      }
      r
  }

  /** The span name: the override if there is one, otherwise the function's identifier. */
  function SpanName(attrs: seq<NestedMeta>, ident: string): (name: string)
    ensures NameOverride(attrs).None? ==> name == ident
    ensures NameOverride(attrs).Some? ==> name == NameOverride(attrs).value
  {
    NameOverride(attrs).UnwrapOr(ident)
  }

  /**
   * `{ { let __span = game_metrics::Span::new(name); block } }`. Wrapping
   * loses nothing: the span name and the original block are recovered from
   * the new body, and the first statement it runs is the span guard.
   */
  function Wrap(name: string, block: Block): (body: Block)
    ensures Unwrap(body) == Some((name, block))
    ensures FirstStatement(body) == Some(SpanGuard(GuardBinding, name))
  {
    Block([Nested(Block([SpanGuard(GuardBinding, name), Nested(block)]))])
  }

  /** Recognises a wrapped body: the span name and the original block it guards. */
  function Unwrap(body: Block): Option<(string, Block)>
  {
    if |body.stmts| == 1 && body.stmts[0].Nested? then
      var inner := body.stmts[0].block.stmts;
      if |inner| == 2 && inner[0].SpanGuard? && inner[0].binding == GuardBinding && inner[1].Nested?
      then Some((inner[0].spanName, inner[1].block))
      else None
    else None
  }

  /** The first statement a body runs, looking through nested blocks. */
  function FirstStatement(body: Block): Option<Stmt>
    decreases body
  {
    if body.stmts == [] then None
    else match body.stmts[0]
      case Nested(b) => FirstStatement(b)
      case s => Some(s)
  }

  /**
   * `#[instrument(attrs)]` on `input`. With the `disable` feature the input
   * comes back unchanged. Otherwise a function keeps its attributes,
   * visibility and signature and gets its block wrapped in a span guard
   * named by the first `name = "<str>"` argument or by the function's
   * identifier; any other item panics.
   */
  function Expand(attrs: seq<NestedMeta>, input: Item, disabled: bool): (r: Expansion)
    ensures disabled ==> r == Emitted(input)
    ensures !disabled && input.NotFn? ==> r == Panicked(UnsupportedItem)
    ensures !disabled && input.Fn? ==>
      && r.Emitted? && r.item.Fn?
      && r.item.f.attrs == input.f.attrs
      && r.item.f.vis == input.f.vis
      && r.item.f.sig == input.f.sig
      && Unwrap(r.item.f.block) == Some((SpanName(attrs, input.f.sig.ident), input.f.block))
  {
    if disabled then Emitted(input)
    else match input
      case Fn(f) =>
        var name := SpanName(attrs, f.sig.ident);
        Emitted(Fn(f.(block := Wrap(name, f.block))))
      case NotFn(_) => Panicked(UnsupportedItem)
  }
}
