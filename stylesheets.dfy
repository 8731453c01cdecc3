/**
 * Gathering the stylesheets for the HTML page: one string per argument, in
 * argument order, the first unreadable one aborting the whole rendering.
 * Both revisions (lib/transform.go toHTML, transform.go toHtml) run this loop;
 * they differ only in how one argument is read, which is the `read` parameter.
 */
module Stylesheets {
  import opened Wrappers

  /** The stylesheets the loop collects, or the first argument that could not be read. */
  function Collect(args: seq<string>, read: string -> Option<string>): (r: Result<seq<string>, string>)
    ensures r.Ok? <==> forall i :: 0 <= i < |args| ==> read(args[i]).Some?
    ensures r.Ok? ==> |r.value| == |args|
                      && forall i :: 0 <= i < |args| ==> r.value[i] == read(args[i]).value
    ensures r.Err? ==>
      exists i :: 0 <= i < |args| && r.error == args[i] && read(args[i]).None?
                  && forall j :: 0 <= j < i ==> read(args[j]).Some?
  {
    if args == [] then Ok([])
    else
      match read(args[0])
      case None => Err(args[0])
      case Some(s) =>
        match Collect(args[1..], read)
        case Err(a) => Err(a)
        case Ok(rest) => Ok([s] + rest)
  }

  /** The loop itself: appends each stylesheet read, and returns at the first failure. */
  method Load(args: seq<string>, read: string -> Option<string>) returns (r: Result<seq<string>, string>)
    ensures r == Collect(args, read)
  {
    var loaded: seq<string> := [];
    var k := 0;
    while k < |args|
      invariant 0 <= k <= |args|
      invariant |loaded| == k
      invariant forall i :: 0 <= i < k ==> read(args[i]).Some? && loaded[i] == read(args[i]).value
    {
      match read(args[k])
      case None =>
        CollectFirstFailure(args, read, k);
        return Err(args[k]);
      case Some(s) =>
        loaded := loaded + [s];
      k := k + 1;
    }
    assert loaded == Collect(args, read).value;
    return Ok(loaded);
  }

  /** When every argument before `k` reads and `k` does not, the result is the error at `k`. */
  lemma {:induction false} CollectFirstFailure(args: seq<string>, read: string -> Option<string>, k: nat)
    requires k < |args| && read(args[k]).None?
    requires forall i :: 0 <= i < k ==> read(args[i]).Some?
    ensures Collect(args, read) == Err(args[k])
  {
    if k > 0 {
      CollectFirstFailure(args[1..], read, k - 1);
    }
  }
}
