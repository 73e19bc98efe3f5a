/**
 * The parts of zod's string checks the form schemas use. Every check of a
 * field runs, failing or not, and each failing one adds an issue at the
 * field's path, in declaration order. Messages are message ids; their
 * translation is not modelled.
 */
module ZodChecks {

  datatype Issue = Issue(path: string, messageId: string)

  /** A check that adds one issue when `ok` is false. */
  function Check(ok: bool, path: string, messageId: string): (issues: seq<Issue>)
    ensures issues == [] <==> ok
    ensures !ok ==> issues == [Issue(path, messageId)]
    ensures forall i :: i in issues ==> i.path == path
  {
    if ok then [] else [Issue(path, messageId)]
  }

  /** `.min(n, message)`. */
  function Min(s: string, n: nat, path: string, messageId: string): (issues: seq<Issue>)
    ensures issues == [] <==> |s| >= n
    ensures forall i :: i in issues ==> i == Issue(path, messageId)
  {
    Check(|s| >= n, path, messageId)
  }

  /** `.max(n, message)`. */
  function Max(s: string, n: nat, path: string, messageId: string): (issues: seq<Issue>)
    ensures issues == [] <==> |s| <= n
    ensures forall i :: i in issues ==> i == Issue(path, messageId)
  {
    Check(|s| <= n, path, messageId)
  }
}
