/** The poll contract's error codes and the text by which the host reports a
    contract error to the front end ("Error(Contract, #k)"). Both front-end
    files recognise an error by looking for that text in a failure message. */
module PollErrors {
  import opened Wrappers

  /** `PollError` of contracts/poll/src/lib.rs, a `#[repr(u32)]` enum. */
  datatype PollError = InvalidOption | PollNotInitialized | PollAlreadyInitialized

  /** The numeric code the host reports for each error. */
  function Code(e: PollError): (c: nat)
    ensures 1 <= c <= 3
  {
    match e
    case InvalidOption => 1
    case PollNotInitialized => 2
    case PollAlreadyInitialized => 3
  }

  function DigitChar(d: nat): char
    requires d < 10
  {
    ('0' as int + d) as char
  }

  /** How the host spells a contract error inside a failure message. */
  function Tag(e: PollError): (t: string)
    ensures |t| == 19
  {
    "Error(Contract, #" + [DigitChar(Code(e))] + ")"
  }

  /** `sub` occurs in `s` starting at position `i`. */
  predicate OccursAt(s: string, sub: string, i: int)
  {
    0 <= i && i + |sub| <= |s| && s[i..i + |sub|] == sub
  }

  /** JavaScript's `s.includes(sub)`. */
  predicate Contains(s: string, sub: string)
  {
    exists i :: 0 <= i <= |s| && OccursAt(s, sub, i)
  }

  /** The error a failure message names, tried in the order #1, #2, #3 as both
      front-end files do. */
  function MentionedError(msg: string): (r: Option<PollError>)
    ensures r.None? <==> forall e :: !Contains(msg, Tag(e))
    ensures r.Some? ==> Contains(msg, Tag(r.value))
    ensures r.Some? ==> forall e :: Code(e) < Code(r.value) ==> !Contains(msg, Tag(e))
  {
    if Contains(msg, Tag(InvalidOption)) then Some(InvalidOption)
    else if Contains(msg, Tag(PollNotInitialized)) then Some(PollNotInitialized)
    else if Contains(msg, Tag(PollAlreadyInitialized)) then Some(PollAlreadyInitialized)
    else None
  }

  /** Distinct errors have distinct codes. */
  lemma CodeInjective(a: PollError, b: PollError)
    ensures Code(a) == Code(b) ==> a == b
  {
  }

  /** The tag of one error never contains the tag of another. */
  lemma TagsDoNotOverlap(e: PollError, f: PollError)
    requires e != f
    ensures !Contains(Tag(e), Tag(f))
  {
    forall i | 0 <= i && i + |Tag(f)| <= |Tag(e)|
      ensures !OccursAt(Tag(e), Tag(f), i)
    {
      assert Tag(e)[i..i + 19] == Tag(e);
      CodeInjective(e, f);
      assert Tag(e)[17] != Tag(f)[17];
    }
  }

  /** A message that names exactly one contract error is mapped to that error,
      whatever position the error has in the checking order. */
  lemma MentionedErrorOfSingleTag(msg: string, e: PollError)
    requires Contains(msg, Tag(e))
    requires forall f :: f != e ==> !Contains(msg, Tag(f))
    ensures MentionedError(msg) == Some(e)
  {
  }

  /** The host's report of error `e`, on its own, is recognised as `e`. */
  lemma TagIsRecognised(e: PollError)
    ensures MentionedError(Tag(e)) == Some(e)
  {
    assert OccursAt(Tag(e), Tag(e), 0);
    forall f | f != e
      ensures !Contains(Tag(e), Tag(f))
    {
      TagsDoNotOverlap(e, f);
    }
    MentionedErrorOfSingleTag(Tag(e), e);
  }
}
