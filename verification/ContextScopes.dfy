/** The stack of command contexts, whose scopes may be closed in any order. */
module ContextScopes {
  import opened Wrappers

  datatype Context = Background | Derived(which: nat)

  /** A closed scope that others still stand on keeps its place without a context. */
  datatype Scope = Scope(id: nat, ctx: Option<Context>)

  // ---------------------------------------------------------------- what is meant

  /** The contexts opened so far, numbered from one, and the numbers of those that have been restored. */
  datatype Uses = Uses(begun: seq<Context>, restored: set<nat>)

  /** The context of the most recent use, among the first n, that has not been restored. */
  function Latest(u: Uses, n: nat): Context
    requires n <= |u.begun|
  {
    if n == 0 then Background
    else if n in u.restored then Latest(u, n - 1)
    else u.begun[n - 1]
  }

  function Current(u: Uses): Context {
    Latest(u, |u.begun|)
  }

  datatype Op = Open(ctx: Option<Context>) | Restore(which: nat)

  /** Restoring what was never opened is impossible: there is nothing to call. */
  function Next(u: Uses, op: Op): Uses {
    match op
    case Open(ctx) => u.(begun := u.begun + [if ctx.Some? then ctx.value else Background])
    case Restore(which) =>
      if 1 <= which <= |u.begun| then u.(restored := u.restored + {which}) else u
  }

  function After(ops: seq<Op>): Uses {
    if ops == [] then Uses([], {}) else Next(After(ops[..|ops| - 1]), ops[|ops| - 1])
  }

  /** The latest use that is left decides: not restored itself, with every later one restored. */
  lemma {:induction false} LatestIs(u: Uses, n: nat, k: nat)
    requires k <= n <= |u.begun| && (k > 0 ==> k !in u.restored)
    requires forall j | k < j <= n :: j in u.restored
    ensures Latest(u, n) == if k == 0 then Background else u.begun[k - 1]
  {
    if n > k {
      LatestIs(u, n - 1, k);
    }
  }

  // ---------------------------------------------------------------- what the slice holds

  /** In order of opening, every use that is left has a scope, with its context, and no other use has a context. */
  ghost predicate RepresentsLoosely(scopes: seq<Scope>, u: Uses) {
    && (forall i, j | 0 <= i < j < |scopes| :: scopes[i].id < scopes[j].id)
    && (forall i | 0 <= i < |scopes| :: Faithful(scopes[i], u))
    && (forall k | 1 <= k <= |u.begun| && k !in u.restored :: HasScope(scopes, k))
  }

  ghost predicate HasScope(scopes: seq<Scope>, k: nat) {
    exists i | 0 <= i < |scopes| :: scopes[i].id == k
  }

  /** The last scope, besides, is one that is left. */
  ghost predicate Represents(scopes: seq<Scope>, u: Uses) {
    RepresentsLoosely(scopes, u) && (scopes != [] ==> scopes[|scopes| - 1].ctx.Some?)
  }

  ghost predicate Faithful(s: Scope, u: Uses) {
    && 1 <= s.id <= |u.begun|
    && s.ctx == if s.id in u.restored then None else Some(u.begun[s.id - 1])
  }

  lemma CurrentIsLast(scopes: seq<Scope>, u: Uses)
    requires Represents(scopes, u)
    ensures Current(u) == if scopes == [] then Background else scopes[|scopes| - 1].ctx.value
  {
    forall j | 1 <= j <= |u.begun| && j !in u.restored
      ensures scopes != [] && j <= scopes[|scopes| - 1].id
    {
      assert HasScope(scopes, j);
    }
    var last := if scopes == [] then 0 else scopes[|scopes| - 1].id;
    LatestIs(u, |u.begun|, last);
  }

  lemma OpenKeeps(scopes: seq<Scope>, u: Uses, ctx: Option<Context>)
    requires Represents(scopes, u) && |u.begun| + 1 !in u.restored
    ensures var v := Next(u, Open(ctx));
            Represents(scopes + [Scope(|u.begun| + 1, Some(v.begun[|u.begun|]))], v)
  {
    var v := Next(u, Open(ctx));
    var grown := scopes + [Scope(|u.begun| + 1, Some(v.begun[|u.begun|]))];
    assert forall i | 0 <= i < |scopes| :: grown[i] == scopes[i] && Faithful(scopes[i], u);
    forall k | 1 <= k <= |v.begun| && k !in v.restored
      ensures HasScope(grown, k)
    {
      if k <= |u.begun| {
        assert HasScope(scopes, k);
        var i :| 0 <= i < |scopes| && scopes[i].id == k;
        assert grown[i].id == k;
      } else {
        assert grown[|scopes|].id == k;
      }
    }
  }

  lemma BuryKeeps(scopes: seq<Scope>, u: Uses, id: nat, at: nat)
    requires RepresentsLoosely(scopes, u) && 1 <= id <= |u.begun| && at <= |scopes|
    requires at < |scopes| ==> scopes[at].id == id
    requires forall i | 0 <= i < at :: scopes[i].id != id
    ensures var buried := if at < |scopes| then scopes[at := scopes[at].(ctx := None)] else scopes;
            RepresentsLoosely(buried, Next(u, Restore(id)))
  {
    var v := Next(u, Restore(id));
    var buried := if at < |scopes| then scopes[at := scopes[at].(ctx := None)] else scopes;
    assert forall i | 0 <= i < |scopes| :: buried[i].id == scopes[i].id;
    forall i | 0 <= i < |buried|
      ensures Faithful(buried[i], v)
    {
      assert Faithful(scopes[i], u);
    }
    forall k | 1 <= k <= |v.begun| && k !in v.restored
      ensures HasScope(buried, k)
    {
      assert HasScope(scopes, k);
      var i :| 0 <= i < |scopes| && scopes[i].id == k;
      assert buried[i].id == k;
    }
  }

  lemma PopKeeps(scopes: seq<Scope>, u: Uses)
    requires RepresentsLoosely(scopes, u) && scopes != [] && scopes[|scopes| - 1].ctx.None?
    ensures RepresentsLoosely(scopes[..|scopes| - 1], u)
  {
    var rest := scopes[..|scopes| - 1];
    assert Faithful(scopes[|scopes| - 1], u);
    forall k | 1 <= k <= |u.begun| && k !in u.restored
      ensures HasScope(rest, k)
    {
      assert HasScope(scopes, k);
      var i :| 0 <= i < |scopes| && scopes[i].id == k;
      assert rest[i].id == k;
    }
  }

  // ---------------------------------------------------------------- the code

  /** What UseCommandContext returns: restoring it a second time does nothing. */
  class Handle {
    const id: nat
    var done: bool

    constructor (id: nat)
      ensures this.id == id && !done
    {
      this.id, done := id, false;
    }
  }

  class Executor {
    var scopes: seq<Scope>
    var nextId: nat
    ghost var uses: Uses

    ghost predicate Valid()
      reads this
    {
      && nextId == |uses.begun| && Represents(scopes, uses)
      && forall k | k in uses.restored :: 1 <= k <= nextId
    }

    constructor ()
      ensures Valid() && uses == Uses([], {})
    {
      scopes, nextId, uses := [], 0, Uses([], {});
    }

    method UseCommandContext(ctx: Option<Context>) returns (h: Handle)
      requires Valid()
      modifies this
      ensures Valid() && uses == Next(old(uses), Open(ctx))
      ensures fresh(h) && !h.done && h.id == |uses.begun|
    {
      var context := if ctx.None? then Background else ctx.value;
      OpenKeeps(scopes, uses, ctx);
      nextId := nextId + 1;
      scopes := scopes + [Scope(nextId, Some(context))];
      uses := Next(uses, Open(ctx));
      h := new Handle(nextId);
    }

    method RestoreScope(h: Handle)
      requires Valid() && 1 <= h.id <= nextId && (h.done ==> h.id in uses.restored)
      modifies this, h
      ensures Valid() && h.done && uses == Next(old(uses), Restore(h.id))
    {
      if h.done {
        return;
      }
      h.done := true;
      Bury(h.id);
      PopTombstones();
    }

    /** Takes the context out of the scope, where it stands. */
    method Bury(id: nat)
      requires Valid() && 1 <= id <= nextId
      modifies this`scopes, this`uses
      ensures RepresentsLoosely(scopes, uses) && uses == Next(old(uses), Restore(id))
    {
      var i := 0;
      while i < |scopes| && scopes[i].id != id
        invariant i <= |scopes|
        invariant forall j | 0 <= j < i :: scopes[j].id != id
      {
        i := i + 1;
      }
      BuryKeeps(scopes, uses, id, i);
      if i < |scopes| {
        scopes := scopes[i := scopes[i].(ctx := None)];
      }
      uses := Next(uses, Restore(id));
    }

    method PopTombstones()
      requires RepresentsLoosely(scopes, uses)
      modifies this`scopes
      ensures Represents(scopes, uses)
    {
      while |scopes| > 0 && scopes[|scopes| - 1].ctx.None?
        invariant RepresentsLoosely(scopes, uses)
        decreases |scopes|
      {
        PopKeeps(scopes, uses);
        scopes := scopes[..|scopes| - 1];
      }
    }

    method CommandContext() returns (ctx: Context)
      requires Valid()
      ensures ctx == Current(uses)
    {
      CurrentIsLast(scopes, uses);
      if |scopes| == 0 {
        return Background;
      }
      return scopes[|scopes| - 1].ctx.value;
    }
  }

  ghost predicate Issued(h: Handle, id: nat, u: Uses)
    reads h
  {
    h.id == id && (h.done ==> id in u.restored)
  }

  /** Whatever is opened and restored, in any order and any number of times, the command context is that of the most
      recent use that has not been restored. */
  method Session(ops: seq<Op>) returns (ctx: Context)
    ensures ctx == Current(After(ops))
  {
    var e := new Executor();
    var handles: seq<Handle> := [];
    assert ops[..0] == [];
    for i := 0 to |ops|
      invariant e.Valid() && e.uses == After(ops[..i]) && fresh(e)
      invariant |handles| == |e.uses.begun| && forall k | 0 <= k < |handles| :: fresh(handles[k])
      invariant forall k | 0 <= k < |handles| :: Issued(handles[k], k + 1, e.uses)
    {
      assert ops[..i + 1][..i] == ops[..i];
      match ops[i] {
        case Open(ctx) =>
          var h := e.UseCommandContext(ctx);
          handles := handles + [h];
        case Restore(which) =>
          if 1 <= which <= |handles| {
            e.RestoreScope(handles[which - 1]);
          }
      }
    }
    assert ops[..|ops|] == ops;
    ctx := e.CommandContext();
  }
}
