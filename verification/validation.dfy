/**
 The request bodies the validators read, the rules and messages both API
 versions share, and how express-validator's collected errors become an
 errors object. Validation chains run in schema order and each appends its failures in
 rule order; `mapped()` keeps the FIRST message of each field (used by v2),
 while v1 folds the error array with `reduce`, so the LAST message of each
 field overwrites earlier ones.
 */
module Validation {
  import opened Base

  datatype FieldError = FieldError(path: string, msg: string)

  type ErrorMap = map<string, string>

  /** A validator's verdict: hand the input on (`next()`), or answer 400 with an errors object. */
  datatype Checked<T> = Proceed(input: T) | Reject(errors: ErrorMap)

  // Messages both API versions use
  const MsgFirstName := "Please enter your first name"
  const MsgLastName := "Please enter your last name"
  const MsgEmail := "Please enter your email"
  const MsgValidEmail := "Please enter a valid email"
  const MsgEmailTaken := "Email is already registered"
  const MsgPassword := "Please enter your password"
  const MsgPasswordLength := "Password must be at least 8 characters"
  const MsgConfirm := "Please confirm your password"
  const MsgMismatch := "Passwords do not match"
  const MinPasswordLength: nat := 8

  /** The registration fields of the request body. */
  datatype RegistrationBody = RegistrationBody(
    firstName: Value,
    lastName: Value,
    email: Value,
    password: Value,
    confirmPassword: Value
  )

  /** The login fields of the request body. */
  datatype Credentials = Credentials(email: Value, password: Value)

  /** A `notEmpty` rule. */
  function NotEmptyErrors(path: string, v: Value, msg: string): (errs: seq<FieldError>)
    ensures v.Truthy() <==> errs == []
  {
    if v.Truthy() then [] else [FieldError(path, msg)]
  }

  /** The password chain: notEmpty, isLength({min: 8}). */
  function PasswordErrors(password: Value): seq<FieldError> {
    NotEmptyErrors("password", password, MsgPassword)
    + (if VisibleLength(password.Text()) < MinPasswordLength then [FieldError("password", MsgPasswordLength)] else [])
  }

  function Paths(errs: seq<FieldError>): (ps: set<string>)
    ensures forall i :: 0 <= i < |errs| ==> errs[i].path in ps
    ensures forall p :: p in ps ==> exists i :: 0 <= i < |errs| && errs[i].path == p
  {
    set i | 0 <= i < |errs| :: errs[i].path
  }

  /** Reference definition: the message of the earliest error on `path`. */
  function FirstMessage(errs: seq<FieldError>, path: string): Option<string>
    decreases |errs|
  {
    if |errs| == 0 then None
    else if errs[0].path == path then Some(errs[0].msg)
    else FirstMessage(errs[1..], path)
  }

  /** Reference definition: the message of the latest error on `path`. */
  function LastMessage(errs: seq<FieldError>, path: string): Option<string>
    decreases |errs|
  {
    if |errs| == 0 then None
    else if errs[|errs| - 1].path == path then Some(errs[|errs| - 1].msg)
    else LastMessage(errs[..|errs| - 1], path)
  }

  /** One step of `mapped()`: a field already present keeps its message. */
  function MappedInto(acc: ErrorMap, errs: seq<FieldError>): ErrorMap
    decreases |errs|
  {
    if |errs| == 0 then acc
    else
      var e := errs[0];
      MappedInto(if e.path in acc then acc else acc[e.path := e.msg], errs[1..])
  }

  /** `validationResult(req).mapped()`. */
  function Mapped(errs: seq<FieldError>): ErrorMap {
    MappedInto(map[], errs)
  }

  /** `errors.reduce((o, e) => { o[e.path] = e.msg; return o; }, {})`. */
  function FoldInto(acc: ErrorMap, errs: seq<FieldError>): ErrorMap
    decreases |errs|
  {
    if |errs| == 0 then acc
    else FoldInto(acc[errs[0].path := errs[0].msg], errs[1..])
  }

  function Folded(errs: seq<FieldError>): ErrorMap {
    FoldInto(map[], errs)
  }

  lemma {:induction false} MappedIntoKeepsFirst(acc: ErrorMap, errs: seq<FieldError>, path: string)
    ensures path in acc ==> path in MappedInto(acc, errs) && MappedInto(acc, errs)[path] == acc[path]
    ensures path !in acc ==>
      (path in MappedInto(acc, errs) <==> FirstMessage(errs, path).Some?) &&
      (path in MappedInto(acc, errs) ==> MappedInto(acc, errs)[path] == FirstMessage(errs, path).value)
    decreases |errs|
  {
    if |errs| > 0 {
      var e := errs[0];
      MappedIntoKeepsFirst(if e.path in acc then acc else acc[e.path := e.msg], errs[1..], path);
    }
  }

  /** `mapped()` holds a field iff some error names it, and then its first message. */
  lemma MappedIsFirstWins(errs: seq<FieldError>, path: string)
    ensures path in Mapped(errs) <==> FirstMessage(errs, path).Some?
    ensures path in Mapped(errs) ==> Mapped(errs)[path] == FirstMessage(errs, path).value
  {
    MappedIntoKeepsFirst(map[], errs, path);
  }

  /** Removing the first error changes a last message only if that error was the sole one on its path. */
  lemma {:induction false} LastMessageDropFirst(errs: seq<FieldError>, path: string)
    requires |errs| > 0
    ensures LastMessage(errs[1..], path).Some? ==> LastMessage(errs, path) == LastMessage(errs[1..], path)
    ensures LastMessage(errs[1..], path).None? ==>
      LastMessage(errs, path) == (if errs[0].path == path then Some(errs[0].msg) else None)
    decreases |errs|
  {
    if |errs| > 1 {
      var init := errs[..|errs| - 1];
      assert init[1..] == errs[1..][..|errs[1..]| - 1];
      LastMessageDropFirst(init, path);
    }
  }

  lemma {:induction false} FoldIntoKeepsLast(acc: ErrorMap, errs: seq<FieldError>, path: string)
    ensures path in FoldInto(acc, errs) <==> path in acc || LastMessage(errs, path).Some?
    ensures LastMessage(errs, path).Some? ==> FoldInto(acc, errs)[path] == LastMessage(errs, path).value
    ensures LastMessage(errs, path).None? && path in acc ==> FoldInto(acc, errs)[path] == acc[path]
    decreases |errs|
  {
    if |errs| > 0 {
      FoldIntoKeepsLast(acc[errs[0].path := errs[0].msg], errs[1..], path);
      LastMessageDropFirst(errs, path);
    }
  }

  /** The v1 fold holds a field iff some error names it, and then its last message. */
  lemma FoldedIsLastWins(errs: seq<FieldError>, path: string)
    ensures path in Folded(errs) <==> LastMessage(errs, path).Some?
    ensures path in Folded(errs) ==> Folded(errs)[path] == LastMessage(errs, path).value
  {
    FoldIntoKeepsLast(map[], errs, path);
  }

  /** Both foldings report exactly the fields that failed, so either is empty iff nothing failed. */
  lemma {:induction false} FoldingsCoverPaths(errs: seq<FieldError>)
    ensures Mapped(errs).Keys == Paths(errs)
    ensures Folded(errs).Keys == Paths(errs)
  {
    forall p | true
      ensures p in Mapped(errs) <==> p in Paths(errs)
      ensures p in Folded(errs) <==> p in Paths(errs)
    {
      MappedIsFirstWins(errs, p);
      FoldedIsLastWins(errs, p);
      FirstMessageFindsPath(errs, p);
      LastMessageFindsPath(errs, p);
    }
  }

  lemma {:induction false} FirstMessageFindsPath(errs: seq<FieldError>, path: string)
    ensures FirstMessage(errs, path).Some? <==> path in Paths(errs)
    decreases |errs|
  {
    if |errs| > 0 {
      FirstMessageFindsPath(errs[1..], path);
      assert Paths(errs) == {errs[0].path} + Paths(errs[1..]) by {
        forall p | p in Paths(errs) ensures p in {errs[0].path} + Paths(errs[1..]) {
          var i :| 0 <= i < |errs| && errs[i].path == p;
          if i > 0 { assert errs[1..][i - 1].path == p; }
        }
      }
    }
  }

  lemma {:induction false} LastMessageFindsPath(errs: seq<FieldError>, path: string)
    ensures LastMessage(errs, path).Some? <==> path in Paths(errs)
    decreases |errs|
  {
    if |errs| > 0 {
      var init := errs[..|errs| - 1];
      LastMessageFindsPath(init, path);
      assert Paths(errs) == Paths(init) + {errs[|errs| - 1].path} by {
        forall p | p in Paths(errs) ensures p in Paths(init) + {errs[|errs| - 1].path} {
          var i :| 0 <= i < |errs| && errs[i].path == p;
          if i < |errs| - 1 { assert init[i].path == p; }
        }
      }
    }
  }

  /** The first message on a path of a concatenation comes from the left part when it names the path. */
  lemma {:induction false} FirstMessageAppend(a: seq<FieldError>, b: seq<FieldError>, path: string)
    ensures FirstMessage(a + b, path) == (if FirstMessage(a, path).Some? then FirstMessage(a, path) else FirstMessage(b, path))
    decreases |a|
  {
    if |a| > 0 {
      assert (a + b)[1..] == a[1..] + b;
      FirstMessageAppend(a[1..], b, path);
    } else {
      assert a + b == b;
    }
  }

  /** A run of errors all on other paths has no message for `path`. */
  lemma {:induction false} FirstMessageElsewhere(errs: seq<FieldError>, path: string)
    requires forall i :: 0 <= i < |errs| ==> errs[i].path != path
    ensures FirstMessage(errs, path) == None
    ensures LastMessage(errs, path) == None
    decreases |errs|
  {
    if |errs| > 0 {
      FirstMessageElsewhere(errs[1..], path);
      FirstMessageElsewhere(errs[..|errs| - 1], path);
    }
  }

  /** The last message on a path of a concatenation comes from the right part when it names the path. */
  lemma {:induction false} LastMessageAppend(a: seq<FieldError>, b: seq<FieldError>, path: string)
    ensures LastMessage(a + b, path) == (if LastMessage(b, path).Some? then LastMessage(b, path) else LastMessage(a, path))
    decreases |b|
  {
    if |b| > 0 {
      assert (a + b)[..|a + b| - 1] == a + b[..|b| - 1];
      LastMessageAppend(a, b[..|b| - 1], path);
    } else {
      assert a + b == a;
    }
  }

  /** Errors on other paths in front of a run do not change the run's first message. */
  lemma FirstMessageSkip(a: seq<FieldError>, b: seq<FieldError>, path: string)
    requires forall i :: 0 <= i < |a| ==> a[i].path != path
    ensures FirstMessage(a + b, path) == FirstMessage(b, path)
  {
    FirstMessageElsewhere(a, path);
    FirstMessageAppend(a, b, path);
  }

  /** Errors on other paths after a run do not change the run's first message. */
  lemma FirstMessageStop(a: seq<FieldError>, b: seq<FieldError>, path: string)
    requires forall i :: 0 <= i < |b| ==> b[i].path != path
    ensures FirstMessage(a + b, path) == FirstMessage(a, path)
  {
    FirstMessageElsewhere(b, path);
    FirstMessageAppend(a, b, path);
  }
}
