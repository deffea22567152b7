/**
  `check_parameters` of src/util.ts: every handler first checks that the request
  body carries each required key with the required `typeof`, collects one problem
  per offending key in the order of the `required` object, and on any problem
  answers 400 with "Bad request: " and the problems joined by ", ".
*/
module Params {
  import opened Wrappers
  import opened Http

  /** A JavaScript number: finite values are exact rationals here. */
  datatype Number = Num(value: real) | NaN | Infinity(negative: bool)

  /** A value of a parsed request body; null, arrays and objects all have typeof 'object'. */
  datatype JsValue = JsString(s: string) | JsNumber(n: Number) | JsBoolean(b: bool) | JsObject

  /** A request body: the keys it has. A key that is absent reads as `undefined`. */
  type Request = map<string, JsValue>

  /** `ParameterType = 'string' | 'boolean' | 'number'`. */
  datatype ParamType = StringType | BooleanType | NumberType

  function TypeName(t: ParamType): string {
    match t
    case StringType => "string"
    case BooleanType => "boolean"
    case NumberType => "number"
  }

  /** `typeof ctx.request.body[key]`. */
  function TypeOf(body: Request, key: string): (r: string)
    ensures r == "undefined" <==> key !in body
  {
    if key !in body then "undefined"
    else match body[key]
      case JsString(_) => "string"
      case JsNumber(_) => "number"
      case JsBoolean(_) => "boolean"
      case JsObject => "object"
  }

  /** The key is present and has the required type. */
  predicate Conforms(body: Request, key: string, typ: ParamType) {
    key in body && TypeOf(body, key) == TypeName(typ)
  }

  /** The problem reported for one entry of `required`, if any. */
  function ProblemOf(body: Request, key: string, typ: ParamType): (r: seq<string>)
    ensures |r| <= 1
  {
    var t := TypeOf(body, key);
    if t == "undefined" then ["missing " + key + " param"]
    else if t != TypeName(typ) then [key + " param must be " + TypeName(typ)]
    else []
  }

  /** The `problems` array after the loop over the entries of `required`, in their order. */
  function Problems(body: Request, required: seq<(string, ParamType)>): seq<string> {
    if |required| == 0 then []
    else
      var last := required[|required| - 1];
      Problems(body, required[..|required| - 1]) + ProblemOf(body, last.0, last.1)
  }

  /** `parts.join(sep)`. */
  function Join(parts: seq<string>, sep: string): (r: string)
    ensures |parts| == 0 ==> r == ""
    ensures |parts| > 0 ==> parts[0] <= r
  {
    if |parts| == 0 then ""
    else if |parts| == 1 then parts[0]
    else parts[0] + sep + Join(parts[1..], sep)
  }

  /** The message of the 400 answer. */
  function BadRequest(problems: seq<string>): (r: string)
    ensures |r| >= 13 && r[..13] == "Bad request: "
    ensures |problems| > 0 ==> problems[0] <= r[13..]
  {
    "Bad request: " + Join(problems, ", ")
  }

  /** One entry causes a problem exactly when it does not conform; the two messages. */
  lemma ProblemOfReports(body: Request, key: string, typ: ParamType)
    ensures ProblemOf(body, key, typ) == [] <==> Conforms(body, key, typ)
    ensures key !in body ==> ProblemOf(body, key, typ) == ["missing " + key + " param"]
    ensures key in body && !Conforms(body, key, typ) ==>
      ProblemOf(body, key, typ) == [key + " param must be " + TypeName(typ)]
  {
  }

  /** Every entry of `required` names a present key of the required type. */
  predicate AllConform(body: Request, required: seq<(string, ParamType)>) {
    forall i :: 0 <= i < |required| ==> Conforms(body, required[i].0, required[i].1)
  }

  lemma AllConformLast(body: Request, required: seq<(string, ParamType)>)
    requires |required| > 0
    ensures var n := |required| - 1;
      AllConform(body, required) <==> AllConform(body, required[..n]) && Conforms(body, required[n].0, required[n].1)
  {
    var n := |required| - 1;
    if AllConform(body, required[..n]) && Conforms(body, required[n].0, required[n].1) {
      forall i | 0 <= i < |required|
        ensures Conforms(body, required[i].0, required[i].1)
      {
        if i < n {
          assert required[..n][i] == required[i];
        }
      }
    }
  }

  /** No problem is found exactly when every required key is present with its type. */
  lemma {:induction false} ProblemsEmptyIff(body: Request, required: seq<(string, ParamType)>)
    ensures Problems(body, required) == [] <==> AllConform(body, required)
  {
    if |required| > 0 {
      var n := |required| - 1;
      var p, q := Problems(body, required[..n]), ProblemOf(body, required[n].0, required[n].1);
      assert Problems(body, required) == p + q;
      assert |p + q| == |p| + |q|;
      ProblemsEmptyIff(body, required[..n]);
      ProblemOfReports(body, required[n].0, required[n].1);
      AllConformLast(body, required);
    }
  }

  lemma ProblemsLast(body: Request, required: seq<(string, ParamType)>)
    requires |required| > 0
    ensures var n := |required| - 1;
      Problems(body, required) == Problems(body, required[..n]) + ProblemOf(body, required[n].0, required[n].1)
  {
  }

  lemma Regroup<T>(x: seq<T>, y: seq<T>, z: seq<T>)
    ensures (x + y) + z == x + (y + z)
  {
  }

  /** Problems are listed in the order of `required`: the list for a + b is a's list then b's. */
  lemma {:induction false} ProblemsAppend(body: Request, a: seq<(string, ParamType)>, b: seq<(string, ParamType)>)
    ensures Problems(body, a + b) == Problems(body, a) + Problems(body, b)
  {
    if |b| == 0 {
      assert a + b == a;
    } else {
      var n := |b| - 1;
      var last := b[n];
      var ab := a + b;
      ProblemsAppend(body, a, b[..n]);
      assert ab[..|ab| - 1] == a + b[..n];
      assert ab[|ab| - 1] == last;
      ProblemsLast(body, ab);
      ProblemsLast(body, b);
      Regroup(Problems(body, a), Problems(body, b[..n]), ProblemOf(body, last.0, last.1));
    }
  }

  /** The positions in `required` whose entry does not conform. */
  function Offending(body: Request, required: seq<(string, ParamType)>): set<nat> {
    set i: nat | i < |required| && !Conforms(body, required[i].0, required[i].1)
  }

  lemma OffendingLast(body: Request, required: seq<(string, ParamType)>)
    requires |required| > 0
    ensures var n := |required| - 1;
      && (forall i :: i in Offending(body, required[..n]) ==> i < n)
      && Offending(body, required)
         == Offending(body, required[..n]) + (if Conforms(body, required[n].0, required[n].1) then {} else {n})
  {
    var n := |required| - 1;
    forall i | 0 <= i < n
      ensures required[..n][i] == required[i]
    {
    }
  }

  /** There is one problem per offending key: as many problems as entries that do not conform. */
  lemma {:induction false} ProblemsCount(body: Request, required: seq<(string, ParamType)>)
    ensures |Problems(body, required)| == |Offending(body, required)|
  {
    if |required| > 0 {
      var n := |required| - 1;
      var below := Offending(body, required[..n]);
      ProblemsCount(body, required[..n]);
      ProblemOfReports(body, required[n].0, required[n].1);
      OffendingLast(body, required);
      assert n !in below;
    }
  }

  /**
    `check_parameters(ctx, required)`: true, with the response untouched, when every
    key conforms; otherwise false with status 400 and the joined problems.
  */
  method CheckParameters(res: Response, body: Request, required: seq<(string, ParamType)>) returns (ok: bool)
    modifies res
    ensures ok == (Problems(body, required) == [])
    ensures res.Snapshot() ==
      if ok then old(res.Snapshot()) else Fail(old(res.Snapshot()), 400, BadRequest(Problems(body, required)))
  {
    var problems: seq<string> := [];
    for i := 0 to |required|
      invariant problems == Problems(body, required[..i])
    {
      var key, typ := required[i].0, required[i].1;
      var t := TypeOf(body, key);
      if t == "undefined" {
        problems := problems + ["missing " + key + " param"];
      } else if t != TypeName(typ) {
        problems := problems + [key + " param must be " + TypeName(typ)];
      }
      assert required[..i + 1][..i] == required[..i];
    }
    assert required[..|required|] == required;
    if |problems| > 0 {
      res.SetStatus(400);
      res.SetMessage(BadRequest(problems));
      return false;
    }
    return true;
  }
}
