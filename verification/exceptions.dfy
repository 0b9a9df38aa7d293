/** The exception classes the lab-administration database layer raises, and
    the messages of the two classes that format their own.

    A raised exception is a class plus its message text; `except C` catches a
    raised exception exactly when its class is a subclass of `C`. */
module Exceptions {
  import opened Results

  /** The live classes of the exception module, plus the two built-ins they
      hang from (`Exception`, the root here, and `ValueError`). */
  datatype ExceptionClass =
    | Exception
    | ValueError
    | LabadminError
    | LabadminDBError
    | LabadminDBDuplicateError
    | LabadminDBUnknownIDError

  /** The direct base class of each class; `Exception` is the root. */
  function Base(c: ExceptionClass): Option<ExceptionClass>
  {
    match c
    case Exception => None
    case ValueError => Some(Exception)
    case LabadminError => Some(Exception)
    case LabadminDBError => Some(LabadminError)
    case LabadminDBDuplicateError => Some(LabadminDBError)
    case LabadminDBUnknownIDError => Some(LabadminDBError)
  }

  /** Number of proper ancestors of `c`. */
  function Depth(c: ExceptionClass): (d: nat)
    ensures Base(c).None? <==> d == 0
  {
    match c
    case Exception => 0
    case ValueError => 1
    case LabadminError => 1
    case LabadminDBError => 2
    case LabadminDBDuplicateError => 3
    case LabadminDBUnknownIDError => 3
  }

  /** Each base class has one ancestor fewer than its subclass. */
  lemma BaseIsShallower(c: ExceptionClass)
    ensures Base(c).Some? ==> Depth(Base(c).value) == Depth(c) - 1
  {
  }

  /** Python's `issubclass(c, ancestor)`: `ancestor` is `c` or lies on the
      chain of base classes above it. */
  predicate IsSubclass(c: ExceptionClass, ancestor: ExceptionClass)
    decreases Depth(c)
  {
    BaseIsShallower(c);
    c == ancestor || (Base(c).Some? && IsSubclass(Base(c).value, ancestor))
  }

  /** A handler for `b` also catches every subclass of every subclass of `b`. */
  lemma {:induction false} SubclassTransitive(a: ExceptionClass, b: ExceptionClass, c: ExceptionClass)
    requires IsSubclass(a, b) && IsSubclass(b, c)
    ensures IsSubclass(a, c)
    decreases Depth(a)
  {
    if a != b {
      BaseIsShallower(a);
      SubclassTransitive(Base(a).value, b, c);
    }
  }

  /** An ancestor is never deeper than its descendant. */
  lemma {:induction false} SubclassDepth(a: ExceptionClass, b: ExceptionClass)
    requires IsSubclass(a, b)
    ensures Depth(b) <= Depth(a)
    ensures Depth(b) == Depth(a) ==> a == b
    decreases Depth(a)
  {
    if a != b {
      BaseIsShallower(a);
      SubclassDepth(Base(a).value, b);
    }
  }

  /** Two distinct classes are never subclasses of each other. */
  lemma SubclassAntisymmetric(a: ExceptionClass, b: ExceptionClass)
    requires IsSubclass(a, b) && IsSubclass(b, a)
    ensures a == b
  {
    SubclassDepth(a, b);
    SubclassDepth(b, a);
  }

  /** The hierarchy of the module: the duplicate and unknown-ID errors are
      database errors, database errors are lab-administration errors, and
      `ValueError` is none of these. */
  lemma Hierarchy()
    ensures IsSubclass(LabadminDBDuplicateError, LabadminDBError)
    ensures IsSubclass(LabadminDBUnknownIDError, LabadminDBError)
    ensures IsSubclass(LabadminDBError, LabadminError)
    ensures IsSubclass(LabadminDBDuplicateError, LabadminError)
    ensures IsSubclass(LabadminDBUnknownIDError, LabadminError)
    ensures !IsSubclass(ValueError, LabadminError)
    ensures !IsSubclass(LabadminDBDuplicateError, LabadminDBUnknownIDError)
    ensures !IsSubclass(LabadminDBUnknownIDError, LabadminDBDuplicateError)
    ensures forall c :: IsSubclass(c, Exception)
  {
  }

  /** A raised exception: its class and the text of its message. */
  datatype Raised = Raised(cls: ExceptionClass, message: string)

  /** Whether `except handler:` catches `e`. */
  predicate Catches(handler: ExceptionClass, e: Raised)
  {
    IsSubclass(e.cls, handler)
  }

  predicate StartsWith(s: string, prefix: string)
  {
    |prefix| <= |s| && s[..|prefix|] == prefix
  }

  predicate EndsWith(s: string, suffix: string)
  {
    |suffix| <= |s| && s[|s| - |suffix|..] == suffix
  }

  // ---------------------------------------------------------------------
  // Message templates with two `%s` holes: pre + a + mid + b + suf.
  // ---------------------------------------------------------------------

  /** Position of the first `c` in `s`, or `|s|` when there is none. */
  function FirstIndexOf(s: string, c: char): (k: nat)
    ensures k <= |s|
    ensures forall i :: 0 <= i < k ==> s[i] != c
    ensures k < |s| ==> s[k] == c
  {
    if s == [] then 0
    else if s[0] == c then 0
    else 1 + FirstIndexOf(s[1..], c)
  }

  /** The unique index with the two properties of `FirstIndexOf` is it. */
  lemma FirstIndexOfUnique(s: string, c: char, k: nat)
    requires k <= |s|
    requires forall i :: 0 <= i < k ==> s[i] != c
    requires k < |s| ==> s[k] == c
    ensures FirstIndexOf(s, c) == k
  {
  }

  /** `pre % (a, b)` for a template whose two holes are separated by `mid`. */
  function Fill(pre: string, mid: string, suf: string, a: string, b: string): (msg: string)
    ensures |msg| == |pre| + |a| + |mid| + |b| + |suf|
    ensures msg[..|pre|] == pre
    ensures msg[|pre|..|pre| + |a|] == a
    ensures msg[|pre| + |a| + |mid|..|msg| - |suf|] == b
    ensures msg[|msg| - |suf|..] == suf
  {
    pre + a + mid + b + suf
  }

  /** Reads the two hole values back out of a filled template: the first
      hole ends at the first occurrence of the first character of `mid`. */
  function Unfill(pre: string, mid: string, suf: string, msg: string): Option<(string, string)>
    requires |mid| > 0
  {
    if |msg| < |pre| + |suf| || msg[..|pre|] != pre || msg[|msg| - |suf|..] != suf then None
    else
      var body := msg[|pre|..|msg| - |suf|];
      var k := FirstIndexOf(body, mid[0]);
      if k + |mid| <= |body| && body[k..k + |mid|] == mid then
        Some((body[..k], body[k + |mid|..]))
      else
        None
  }

  /** Unfill inverts Fill whenever the first hole does not contain the
      character that opens `mid`. */
  lemma UnfillFill(pre: string, mid: string, suf: string, a: string, b: string)
    requires |mid| > 0
    requires mid[0] !in a
    ensures Unfill(pre, mid, suf, Fill(pre, mid, suf, a, b)) == Some((a, b))
  {
    var msg := Fill(pre, mid, suf, a, b);
    var body := msg[|pre|..|msg| - |suf|];
    assert body == a + mid + b;
    FirstIndexOfUnique(body, mid[0], |a|);
    assert body[|a|..|a| + |mid|] == mid;
    assert body[..|a|] == a;
    assert body[|a| + |mid|..] == b;
  }

  /** Whatever Unfill accepts is a filled template, with the first hole free
      of the character that opens `mid`. */
  lemma FillUnfill(pre: string, mid: string, suf: string, msg: string, a: string, b: string)
    requires |mid| > 0
    requires Unfill(pre, mid, suf, msg) == Some((a, b))
    ensures msg == Fill(pre, mid, suf, a, b)
    ensures mid[0] !in a
  {
    var body := msg[|pre|..|msg| - |suf|];
    var k := FirstIndexOf(body, mid[0]);
    assert body == a + mid + b by {
      assert body == body[..k] + body[k..k + |mid|] + body[k + |mid|..];
    }
    assert msg == pre + body + suf by {
      assert msg == msg[..|pre|] + msg[|pre|..|msg| - |suf|] + msg[|msg| - |suf|..];
    }
    assert a == body[..k];
  }

  // ---------------------------------------------------------------------
  // LabadminDBDuplicateError
  // ---------------------------------------------------------------------

  const DuplicatePre: string := "The '"
  const DuplicateMid: string := "' object with attributes ("
  const DuplicateSuf: string := ") already exists."

  /** The message of `LabadminDBDuplicateError(obj_name, attributes)`. */
  function DuplicateMessage(objName: string, attributes: string): (msg: string)
    ensures msg == "The '" + objName + "' object with attributes (" + attributes + ") already exists."
    ensures EndsWith(msg, "already exists.")
  {
    var msg := Fill(DuplicatePre, DuplicateMid, DuplicateSuf, objName, attributes);
    var tail := "already exists.";
    assert msg == ("The '" + objName + "' object with attributes (" + attributes + ") ") + tail;
    assert msg[|msg| - |tail|..] == tail;
    msg
  }

  /** Recovers `(obj_name, attributes)` from a duplicate-error message. */
  function ParseDuplicateMessage(msg: string): Option<(string, string)>
  {
    Unfill(DuplicatePre, DuplicateMid, DuplicateSuf, msg)
  }

  /** The message determines its arguments when the object name holds no
      single quote, and only messages of that shape parse. */
  lemma DuplicateMessageRoundTrip(msg: string, objName: string, attributes: string)
    ensures ParseDuplicateMessage(msg) == Some((objName, attributes))
            <==> msg == DuplicateMessage(objName, attributes) && '\'' !in objName
  {
    if ParseDuplicateMessage(msg) == Some((objName, attributes)) {
      FillUnfill(DuplicatePre, DuplicateMid, DuplicateSuf, msg, objName, attributes);
    }
    if msg == DuplicateMessage(objName, attributes) && '\'' !in objName {
      UnfillFill(DuplicatePre, DuplicateMid, DuplicateSuf, objName, attributes);
    }
  }

  function DuplicateError(objName: string, attributes: string): (e: Raised)
    ensures e.cls == LabadminDBDuplicateError && Catches(LabadminDBError, e)
    ensures ParseDuplicateMessage(e.message) == Some((objName, attributes)) <==> '\'' !in objName
  {
    DuplicateMessageRoundTrip(DuplicateMessage(objName, attributes), objName, attributes);
    Raised(LabadminDBDuplicateError, DuplicateMessage(objName, attributes))
  }

  // ---------------------------------------------------------------------
  // LabadminDBUnknownIDError
  // ---------------------------------------------------------------------

  const UnknownIDPre: string := "The object with ID '"
  const UnknownIDMid: string := "' does not exists in table '"
  const UnknownIDSuf: string := "'"

  /** The message of `LabadminDBUnknownIDError(missing_id, table)`; the id
      is taken as already rendered by `%s`. */
  function UnknownIDMessage(missingId: string, table: string): (msg: string)
    ensures msg == "The object with ID '" + missingId + "' does not exists in table '" + table + "'"
    ensures StartsWith(msg, "The object with ID '" + missingId + "' does not")
  {
    var msg := Fill(UnknownIDPre, UnknownIDMid, UnknownIDSuf, missingId, table);
    var head := "The object with ID '" + missingId + "' does not";
    assert msg == head + (" exists in table '" + table + "'");
    assert msg[..|head|] == head;
    msg
  }

  /** Recovers `(missing_id, table)` from an unknown-ID message. */
  function ParseUnknownIDMessage(msg: string): Option<(string, string)>
  {
    Unfill(UnknownIDPre, UnknownIDMid, UnknownIDSuf, msg)
  }

  lemma UnknownIDMessageRoundTrip(msg: string, missingId: string, table: string)
    ensures ParseUnknownIDMessage(msg) == Some((missingId, table))
            <==> msg == UnknownIDMessage(missingId, table) && '\'' !in missingId
  {
    if ParseUnknownIDMessage(msg) == Some((missingId, table)) {
      FillUnfill(UnknownIDPre, UnknownIDMid, UnknownIDSuf, msg, missingId, table);
    }
    if msg == UnknownIDMessage(missingId, table) && '\'' !in missingId {
      UnfillFill(UnknownIDPre, UnknownIDMid, UnknownIDSuf, missingId, table);
    }
  }

  function UnknownIDError(missingId: string, table: string): (e: Raised)
    ensures e.cls == LabadminDBUnknownIDError && Catches(LabadminDBError, e)
    ensures ParseUnknownIDMessage(e.message) == Some((missingId, table)) <==> '\'' !in missingId
  {
    UnknownIDMessageRoundTrip(UnknownIDMessage(missingId, table), missingId, table);
    Raised(LabadminDBUnknownIDError, UnknownIDMessage(missingId, table))
  }
}
