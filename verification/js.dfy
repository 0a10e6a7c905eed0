/** The few JavaScript runtime notions the dialog code leans on: values that
    may be `undefined`, thrown values and the cancellation code, splitting a
    string on one separator character, and number-to-string conversion. */
module Js {

  /** `None` stands for JavaScript's `undefined` (or `null` where the code
      does not distinguish the two). */
  datatype Option<+T> = None | Some(value: T)

  /** A computation that either returns a value or throws. */
  datatype Result<+T> = Success(value: T) | Failure(error: JsError)

  /** A value thrown by a handler. Thrown strings and Error-like objects are
      both possible; `rendered` is what `String(e)` produces for the object. */
  datatype JsError =
    | StringError(text: string)
    | ErrorObject(name: string, code: string, message: string,
                  fileName: string, lineNumber: int, rendered: string)

  /** The `code` a cancellation failure carries. */
  const CancelCode: string := "ECANCELLED"

  /** The failure raised when the user cancels while a handler is suspended. */
  const Cancelled: JsError :=
    ErrorObject("Error", CancelCode, "Cancelled", "", 0, "Error: Cancelled")

  /** `e.code === 'ECANCELLED'`; a thrown string has no code. */
  predicate IsCancelled(e: JsError) {
    e.ErrorObject? && e.code == CancelCode
  }

  /** A `TypeError` raised by the runtime, e.g. on a property access of
      `undefined`, or by the code itself. */
  function TypeError(message: string): (e: JsError)
    ensures !IsCancelled(e)
  {
    ErrorObject("TypeError", "", message, "", 0, "TypeError: " + message)
  }

  /** Running computations in order until one throws: all their values,
      or the first failure. */
  function AllValues<T>(rs: seq<Result<T>>): (r: Result<seq<T>>)
    ensures r.Success? <==> forall i :: 0 <= i < |rs| ==> rs[i].Success?
    ensures r.Success? ==> |r.value| == |rs| && forall i :: 0 <= i < |rs| ==> rs[i] == Success(r.value[i])
    ensures r.Failure? ==> exists i :: 0 <= i < |rs| && rs[i] == Failure(r.error)
                                       && forall j :: 0 <= j < i ==> rs[j].Success?
    decreases |rs|
  {
    if |rs| == 0 then Success([])
    else
      var rest := AllValues(rs[1..]);
      assert forall i :: 1 <= i < |rs| ==> rs[i] == rs[1..][i - 1];
      if rs[0].Failure? then Failure(rs[0].error)
      else if rest.Failure? then
        var k :| 0 <= k < |rs[1..]| && rs[1..][k] == Failure(rest.error)
                 && forall j :: 0 <= j < k ==> rs[1..][j].Success?;
        assert rs[k + 1] == Failure(rest.error);
        Failure(rest.error)
      else
        var vs := [rs[0].value] + rest.value;
        assert forall i :: 1 <= i < |rs| ==> vs[i] == rest.value[i - 1];
        Success(vs)
  }

  /** `s.split(sep)` for a one-character separator: the pieces between
      separators, in order, including empty ones. */
  function Split(s: string, sep: char): (parts: seq<string>)
    ensures |parts| >= 1
    ensures forall i :: 0 <= i < |parts| ==> sep !in parts[i]
    decreases |s|
  {
    if |s| == 0 then [""]
    else
      var rest := Split(s[1..], sep);
      if s[0] == sep then [""] + rest
      else [[s[0]] + rest[0]] + rest[1..]
  }

  /** `parts.join(sep)`. */
  function Join(parts: seq<string>, sep: char): string
    requires |parts| >= 1
    decreases |parts|
  {
    if |parts| == 1 then parts[0]
    else parts[0] + [sep] + Join(parts[1..], sep)
  }

  /** Joining the pieces of a split gives back the original string. */
  lemma {:induction false} JoinSplit(s: string, sep: char)
    ensures Join(Split(s, sep), sep) == s
    decreases |s|
  {
    if |s| > 0 {
      var rest := Split(s[1..], sep);
      JoinSplit(s[1..], sep);
      if s[0] == sep {
        assert Split(s, sep) == [""] + rest;
        assert Join([""] + rest, sep) == "" + [sep] + Join(rest, sep);
        assert [s[0]] + s[1..] == s;
      } else {
        var parts := [[s[0]] + rest[0]] + rest[1..];
        assert Split(s, sep) == parts;
        if |rest| == 1 {
          assert Join(parts, sep) == [s[0]] + rest[0];
          assert [s[0]] + s[1..] == s;
        } else {
          assert parts[1..] == rest[1..];
          assert Join(rest, sep) == rest[0] + [sep] + Join(rest[1..], sep);
          assert Join(parts, sep) == [s[0]] + rest[0] + [sep] + Join(rest[1..], sep);
          assert [s[0]] + s[1..] == s;
        }
      }
    }
  }

  /** Splitting `a + b` where `a` holds no separator glues `a` onto the first
      piece of `b`. */
  lemma {:induction false} SplitPrefix(a: string, b: string, sep: char)
    requires sep !in a
    ensures Split(a + b, sep) == [a + Split(b, sep)[0]] + Split(b, sep)[1..]
    decreases |a|
  {
    if |a| > 0 {
      assert (a + b)[1..] == a[1..] + b;
      SplitPrefix(a[1..], b, sep);
      assert [a[0]] + (a[1..] + Split(b, sep)[0]) == a + Split(b, sep)[0];
    } else {
      var parts := Split(b, sep);
      assert a + b == b;
      assert a + parts[0] == parts[0];
      assert [parts[0]] + parts[1..] == parts;
    }
  }

  /** Splitting the join of separator-free pieces gives the pieces back. */
  lemma {:induction false} SplitJoin(parts: seq<string>, sep: char)
    requires |parts| >= 1
    requires forall i :: 0 <= i < |parts| ==> sep !in parts[i]
    ensures Split(Join(parts, sep), sep) == parts
    decreases |parts|
  {
    if |parts| == 1 {
      SplitPrefix(parts[0], "", sep);
      assert parts[0] + "" == parts[0];
    } else {
      var tail := Join(parts[1..], sep);
      SplitJoin(parts[1..], sep);
      assert Join(parts, sep) == parts[0] + ([sep] + tail);
      SplitPrefix(parts[0], [sep] + tail, sep);
      assert ([sep] + tail)[1..] == tail;
      assert Split([sep] + tail, sep) == [""] + parts[1..];
      assert parts[0] + "" == parts[0];
      assert [parts[0]] + parts[1..] == parts;
    }
  }

  /** `parts[i]`, which is `undefined` past the end. */
  function Piece(parts: seq<string>, i: nat): (r: Option<string>)
    ensures r.Some? <==> i < |parts|
    ensures r.Some? ==> r.value == parts[i]
  {
    if i < |parts| then Some(parts[i]) else None
  }

  /** `String(x)` for an optional string: `undefined` prints as "undefined". */
  function Str(x: Option<string>): string {
    match x
    case Some(s) => s
    case None => "undefined"
  }

  function DigitChar(d: nat): char
    requires d < 10
  {
    "0123456789"[d]
  }

  function NatToString(n: nat): string
    decreases n
  {
    if n < 10 then [DigitChar(n)] else NatToString(n / 10) + [DigitChar(n % 10)]
  }

  /** `String(n)` / `"" + n` for an integer. */
  function IntToString(i: int): string {
    if i < 0 then "-" + NatToString(-i) else NatToString(i)
  }
}
