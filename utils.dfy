/** The error accumulator of login/src/utils.mjs: an append-only list of
    `{message, options}` entries whose printed form is the messages joined
    by line breaks. */
module Utils {
  import opened Wrappers

  /** The `options` record an error may carry (only its `widget` field is
      ever read, by the error reporter). */
  type Options = map<string, string>

  /** A value handed to `add`: a thrown `Error`, a response status text, a
      plain string or a `{message, options}` record. `message` and `options`
      are its fields when present; `text` is what its `toString()` yields. */
  datatype ErrorValue = ErrorValue(message: Option<string>, options: Option<Options>, text: string)

  /** A plain string: it has neither a `message` nor an `options` field, and
      its `toString()` is itself. */
  function FromString(s: string): ErrorValue {
    ErrorValue(None, None, s)
  }

  /** One stored entry of an error list. */
  datatype ErrorEntry = ErrorEntry(message: string, options: Options)

  /** JavaScript truthiness of an optional string: present and non-empty. */
  predicate Truthy(m: Option<string>) {
    m.Some? && m.value != ""
  }

  /** The entry `add` stores for `err`: a falsy message falls back to the
      value's `toString()`, and missing options default to the empty record. */
  function Entry(err: ErrorValue): (e: ErrorEntry)
    ensures Truthy(err.message) ==> e.message == err.message.value
    ensures !Truthy(err.message) ==> e.message == err.text
    ensures err.options == None ==> e.options == map[]
    ensures err.options != None ==> e.options == err.options.value
  {
    var message := if Truthy(err.message) then err.message.value else err.text;
    var options := if err.options.Some? then err.options.value else map[];
    ErrorEntry(message, options)
  }

  /** A plain string is stored as its own message with empty options. */
  lemma EntryOfString(s: string)
    ensures Entry(FromString(s)) == ErrorEntry(s, map[])
  {
  }

  /** The messages of a list of entries, position by position. */
  function Messages(es: seq<ErrorEntry>): (ms: seq<string>)
    ensures |ms| == |es|
    ensures forall i :: 0 <= i < |es| ==> ms[i] == es[i].message
  {
    if es == [] then [] else [es[0].message] + Messages(es[1..])
  }

  /** `ms.join('\n')`. */
  function JoinLines(ms: seq<string>): string {
    if |ms| == 0 then ""
    else if |ms| == 1 then ms[0]
    else ms[0] + "\n" + JoinLines(ms[1..])
  }

  /** `s.split('\n')`: the pieces between line breaks; always at least one. */
  function SplitLines(s: string): (parts: seq<string>)
    ensures |parts| >= 1
  {
    if s == [] then [""]
    else
      var rest := SplitLines(s[1..]);
      if s[0] == '\n' then [""] + rest
      else [[s[0]] + rest[0]] + rest[1..]
  }

  predicate NoLineBreaks(ms: seq<string>) {
    forall i :: 0 <= i < |ms| ==> '\n' !in ms[i]
  }

  lemma {:induction false} SplitWithoutBreak(a: string)
    requires '\n' !in a
    ensures SplitLines(a) == [a]
  {
    if a != [] {
      SplitWithoutBreak(a[1..]);
      assert [a[0]] + a[1..] == a;
    }
  }

  lemma {:induction false} SplitAfterFirstBreak(a: string, b: string)
    requires '\n' !in a
    ensures SplitLines(a + "\n" + b) == [a] + SplitLines(b)
  {
    var s := a + "\n" + b;
    if a == [] {
      assert s[0] == '\n' && s[1..] == b;
    } else {
      assert s[0] == a[0] && s[1..] == a[1..] + "\n" + b;
      SplitAfterFirstBreak(a[1..], b);
      assert [a[0]] + a[1..] == a;
    }
  }

  /** Splitting the joined messages at line breaks gives the messages back,
      in insertion order, as long as the list is non-empty (the empty list
      and the list holding one empty message both join to "") and no message
      holds a line break itself. */
  lemma {:induction false} JoinThenSplit(ms: seq<string>)
    requires ms != []
    requires NoLineBreaks(ms)
    ensures SplitLines(JoinLines(ms)) == ms
  {
    if |ms| == 1 {
      SplitWithoutBreak(ms[0]);
    } else {
      SplitAfterFirstBreak(ms[0], JoinLines(ms[1..]));
      JoinThenSplit(ms[1..]);
      assert [ms[0]] + ms[1..] == ms;
    }
  }

  /** Joining a list extended at the end extends the joined text by a line
      break and the new message. */
  lemma {:induction false} JoinLinesSnoc(ms: seq<string>, m: string)
    requires ms != []
    ensures JoinLines(ms + [m]) == JoinLines(ms) + "\n" + m
  {
    if |ms| > 1 {
      assert (ms + [m])[1..] == ms[1..] + [m];
      JoinLinesSnoc(ms[1..], m);
    }
  }

  lemma {:induction false} MessagesSnoc(es: seq<ErrorEntry>, e: ErrorEntry)
    ensures Messages(es + [e]) == Messages(es) + [e.message]
  {
  }

  /** The accumulator object: its `errors` list is only ever appended to. */
  class AppErrors {
    var errors: seq<ErrorEntry>

    /** A new accumulator holds no errors. */
    constructor()
      ensures errors == []
    {
      errors := [];
    }

    /** Appends exactly one entry at the end and returns the receiver, so
        that calls can be chained. */
    method Add(err: ErrorValue) returns (self: AppErrors)
      modifies this
      ensures self == this
      ensures |errors| == |old(errors)| + 1
      ensures errors[..|old(errors)|] == old(errors)
      ensures errors[|old(errors)|] == Entry(err)
    {
      var entry := Entry(err);
      errors := errors + [entry];
      self := this;
    }

    /** The messages, in insertion order, separated by line breaks. */
    function ToString(): (s: string)
      reads this
      ensures errors == [] ==> s == ""
      ensures |errors| == 1 ==> s == errors[0].message
      ensures errors != [] && NoLineBreaks(Messages(errors)) ==> SplitLines(s) == Messages(errors)
    {
      var ms := Messages(errors);
      if ms != [] && NoLineBreaks(ms) then
        JoinThenSplit(ms);
        JoinLines(ms)
      else
        JoinLines(ms)
    }
  }

  /** After `add`, the printed form is the old one followed by a line break
      and the new message (or just the new message if the list was empty). */
  lemma AddExtendsToString(before: seq<ErrorEntry>, err: ErrorValue)
    ensures JoinLines(Messages(before + [Entry(err)])) ==
      if before == [] then Entry(err).message
      else JoinLines(Messages(before)) + "\n" + Entry(err).message
  {
    MessagesSnoc(before, Entry(err));
    if before != [] {
      JoinLinesSnoc(Messages(before), Entry(err).message);
    }
  }
}
