/** What the compiler keeps between compiles, and where compiled functions and top-level code end up. */
module Sessions {
  import opened Bytes
  import opened Values
  import opened Syntax
  import opened CodeGen
  import M = Machine

  /** What one compilation hands to the next: global names, function signatures and start offsets,
    * and the function bodies in the arena. */
  datatype Session = Session(globals: seq<Sym>, funcs: seq<FuncSig>, starts: seq<nat>, arena: seq<Byte>)

  const FRESH := Session([], [], [], [])

  function TopCtx(z: Session): Ctx {
    Ctx([], z.globals, z.funcs, false, false)
  }

  function FuncCtx(f: FuncDecl, z: Session): Ctx {
    BodyCtx(f, z.globals, z.funcs)
  }

  function AddFunc(z: Session, f: FuncDecl): Session {
    var ctx := FuncCtx(f, z);
    Session(After(f.body, ctx).globals, ctx.funcs, z.starts + [|z.arena|], z.arena + FuncCode(f, ctx))
  }

  function AddTop(z: Session, s: Stmt): Session {
    z.(globals := After(s, TopCtx(z)).globals)
  }

  function AddItem(z: Session, item: Item): Session {
    match item
    case Func(f) => AddFunc(z, f)
    case Top(s) => AddTop(z, s)
  }

  /** The session after `items`: bodies in declaration order, starts at the sums of their lengths. */
  function SessionAfter(items: seq<Item>, z: Session): Session
    decreases |items|
  {
    if items == [] then z else SessionAfter(items[1..], AddItem(z, items[0]))
  }

  /** The top-level code of `items`, in source order. */
  function TopCode(items: seq<Item>, z: Session): seq<Byte>
    decreases |items|
  {
    if items == [] then []
    else
      (match items[0] case Func(_) => [] case Top(s) => StmtCode(s, TopCtx(z), None))
      + TopCode(items[1..], AddItem(z, items[0]))
  }

  predicate ItemOk(item: Item, z: Session) {
    match item
    case Func(f) => FuncOk(f, FuncCtx(f, z)) && FindFunc(z.funcs, f.name).None? && |z.funcs| < MAX_FUNCS
    case Top(s) => StmtOk(s, TopCtx(z), false, false)
  }

  /** The compiler accepts `items` after the session `z`. */
  predicate ItemsOk(items: seq<Item>, z: Session)
    decreases |items|
  {
    items == [] || (ItemOk(items[0], z) && ItemsOk(items[1..], AddItem(z, items[0])))
  }

  function Functions(items: seq<Item>): seq<FuncDecl>
    decreases |items|
  {
    if items == [] then []
    else (match items[0] case Func(f) => [f] case Top(_) => []) + Functions(items[1..])
  }

  /** The tables with which each function body was compiled. */
  function FuncCtxs(items: seq<Item>, z: Session): seq<Ctx>
    decreases |items|
  {
    if items == [] then []
    else (match items[0] case Func(f) => [FuncCtx(f, z)] case Top(_) => []) + FuncCtxs(items[1..], AddItem(z, items[0]))
  }

  /** The top-level statements as one. */
  function Body(items: seq<Item>): Stmt
    decreases |items|
  {
    if items == [] then Skip
    else match items[0] case Func(_) => Body(items[1..]) case Top(s) => Seq(s, Body(items[1..]))
  }

  /** The function table that `z` stands for. */
  function Entries(z: Session): (r: seq<M.FuncEntry>)
    ensures |r| == |z.starts|
  {
    seq(|z.starts|, i requires 0 <= i < |z.starts| =>
      M.FuncEntry(z.starts[i] % 0x1_0000,
                  if i < |z.funcs| then z.funcs[i].params % 0x100 else 0,
                  i < |z.funcs| && z.funcs[i].hasReturn))
  }

  const HALT: seq<Byte> := [0x54]

  /** The buffer after compiling `items`: all bodies, then all top-level code, then the halt. */
  function ImageOf(items: seq<Item>): M.Image {
    var z := SessionAfter(items, FRESH);
    M.Image(z.arena + TopCode(items, FRESH) + HALT, Entries(z))
  }

  /** Execution starts right after the arena. */
  function EntryOf(items: seq<Item>): nat {
    |SessionAfter(items, FRESH).arena|
  }
}
