/** The feedback plumbing every page shares: toasts, and for forms the zod
    issue list folded into a field-error map, with editing a field blanking
    that field's error. */
module Forms {

  /** A `toast({ title, description, variant })` call. */
  datatype Toast = Toast(title: string, description: string, destructive: bool)

  datatype Issue = Issue(field: string, message: string)

  /** What the form shows under each field, keyed by field name. */
  type FieldErrors = map<string, string>

  /** One issue for `field` when a zod check fails, none when it passes. */
  function Check(ok: bool, field: string, message: string): seq<Issue> {
    if ok then [] else [Issue(field, message)]
  }

  /** Joining two issue lists whose fields lie in `fields` keeps them there. */
  lemma FieldsOfJoin(a: seq<Issue>, b: seq<Issue>, fields: set<string>)
    requires forall i :: 0 <= i < |a| ==> a[i].field in fields
    requires forall i :: 0 <= i < |b| ==> b[i].field in fields
    ensures forall i :: 0 <= i < |a + b| ==> (a + b)[i].field in fields
  {
    forall i | 0 <= i < |a + b| ensures (a + b)[i].field in fields {
      if i < |a| {
        assert (a + b)[i] == a[i];
      } else {
        assert (a + b)[i] == b[i - |a|];
      }
    }
  }

  /** No later issue in `issues` names the same field as issue `i`. */
  predicate IsLastFor(issues: seq<Issue>, i: int) {
    0 <= i < |issues| && forall j :: i < j < |issues| ==> issues[j].field != issues[i].field
  }

  /** `issues.forEach(err => fieldErrors[err.path[0]] = err.message)`: every
      field with an issue gets an entry, no other field does, and the last
      issue reported for a field decides its message. */
  function CollectErrors(issues: seq<Issue>): (m: FieldErrors)
    ensures forall i :: 0 <= i < |issues| ==> issues[i].field in m
    ensures forall f :: f in m ==> exists i :: 0 <= i < |issues| && issues[i].field == f
    ensures forall i :: IsLastFor(issues, i) ==> m[issues[i].field] == issues[i].message
    ensures |m| == 0 <==> |issues| == 0
  {
    if |issues| == 0 then map[]
    else
      var n := |issues| - 1;
      var prev := CollectErrors(issues[..n]);
      var m := prev[issues[n].field := issues[n].message];
      CollectStep(issues, prev, m);
      m
  }

  /** The message shown for the field of a last issue is that issue's message. */
  lemma ShownMessage(issues: seq<Issue>, i: int)
    requires IsLastFor(issues, i)
    ensures CollectErrors(issues)[issues[i].field] == issues[i].message
  {
  }

  lemma CollectStep(issues: seq<Issue>, prev: FieldErrors, m: FieldErrors)
    requires |issues| > 0
    requires var pre := issues[..|issues| - 1];
      && (forall i :: 0 <= i < |pre| ==> pre[i].field in prev)
      && (forall f :: f in prev ==> exists i :: 0 <= i < |pre| && pre[i].field == f)
      && (forall i :: IsLastFor(pre, i) ==> prev[pre[i].field] == pre[i].message)
    requires m == prev[issues[|issues| - 1].field := issues[|issues| - 1].message]
    ensures forall i :: 0 <= i < |issues| ==> issues[i].field in m
    ensures forall f :: f in m ==> exists i :: 0 <= i < |issues| && issues[i].field == f
    ensures forall i :: IsLastFor(issues, i) ==> m[issues[i].field] == issues[i].message
    ensures |m| > 0
  {
    var n := |issues| - 1;
    assert issues[n].field in m;
    StepKeysIn(issues, prev, m);
    StepKeysFrom(issues, prev, m);
    StepLastWins(issues, prev, m);
  }

  lemma StepKeysIn(issues: seq<Issue>, prev: FieldErrors, m: FieldErrors)
    requires |issues| > 0
    requires var pre := issues[..|issues| - 1]; forall i :: 0 <= i < |pre| ==> pre[i].field in prev
    requires m == prev[issues[|issues| - 1].field := issues[|issues| - 1].message]
    ensures forall i :: 0 <= i < |issues| ==> issues[i].field in m
  {
    var n := |issues| - 1;
    forall i | 0 <= i < |issues| ensures issues[i].field in m {
      if i < n { assert issues[..n][i] == issues[i]; }
    }
  }

  lemma StepKeysFrom(issues: seq<Issue>, prev: FieldErrors, m: FieldErrors)
    requires |issues| > 0
    requires var pre := issues[..|issues| - 1];
      forall f :: f in prev ==> exists i :: 0 <= i < |pre| && pre[i].field == f
    requires m == prev[issues[|issues| - 1].field := issues[|issues| - 1].message]
    ensures forall f :: f in m ==> exists i :: 0 <= i < |issues| && issues[i].field == f
  {
    var n := |issues| - 1;
    var pre := issues[..n];
    forall f | f in m ensures exists i :: 0 <= i < |issues| && issues[i].field == f {
      if f == issues[n].field {
        assert issues[n].field == f;
      } else {
        assert f in prev;
        var i :| 0 <= i < |pre| && pre[i].field == f;
        assert issues[i].field == f;
      }
    }
  }

  lemma StepLastWins(issues: seq<Issue>, prev: FieldErrors, m: FieldErrors)
    requires |issues| > 0
    requires var pre := issues[..|issues| - 1];
      && (forall i :: 0 <= i < |pre| ==> pre[i].field in prev)
      && (forall i :: IsLastFor(pre, i) ==> prev[pre[i].field] == pre[i].message)
    requires m == prev[issues[|issues| - 1].field := issues[|issues| - 1].message]
    ensures forall i :: IsLastFor(issues, i) ==> m[issues[i].field] == issues[i].message
  {
    var n := |issues| - 1;
    var pre := issues[..n];
    forall i | IsLastFor(issues, i) ensures m[issues[i].field] == issues[i].message {
      if i < n {
        assert pre[i] == issues[i];
        assert IsLastFor(pre, i);
      }
    }
  }

  /** `if (errors[name]) setErrors({...errors, [name]: ""})`: the edited
      field's error is blanked, every other entry is left as it was. */
  function ClearFieldError(errors: FieldErrors, name: string): (r: FieldErrors)
    ensures r.Keys == errors.Keys
    ensures name in r ==> r[name] == ""
    ensures forall k :: k in errors && k != name ==> r[k] == errors[k]
  {
    if name in errors && errors[name] != "" then errors[name := ""] else errors
  }
}
