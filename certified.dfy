/*
 * The message callback shared by the certified-delivery listener and the
 * distributed-queue listener: from the statuses of the field lookups it
 * decides whether anything is printed, whether the sender used certified
 * delivery, and whether this listener is registered for it (in which case
 * the line carries the sequence number). The two programs differ only in the
 * wording of the printed line.
 */
module Certified {
  import opened RvStatus

  /** The statuses of the lookups the callback makes, in the order it makes them. */
  datatype Lookups = Lookups(sendSubject: Status, replySubject: Status, cmSender: Status, cmSequence: Status, convert: Status)

  /** The callback's three locals once it is done: `err`, `certified` and `listener_registered`. */
  datatype Verdict = Verdict(err: Status, certified: bool, registered: bool)

  /** A lookup whose `NOT_FOUND` is taken as success: the absent field is simply not there. */
  function Tolerate(s: Status): Status
  {
    if s == NotFound then Ok else s
  }

  /** `my_callback`'s decisions, branch by branch. */
  function Classify(l: Lookups): (v: Verdict)
    ensures v.certified <==> l.sendSubject == Ok && Tolerate(l.replySubject) == Ok && l.cmSender == Ok
    ensures v.registered <==> v.certified && l.cmSequence == Ok
    ensures v.err == Ok <==>
      l.sendSubject == Ok && Tolerate(l.replySubject) == Ok && Tolerate(l.cmSender) == Ok &&
      (l.cmSender == Ok ==> Tolerate(l.cmSequence) == Ok) && l.convert == Ok
  {
    var err := if l.sendSubject != Ok then l.sendSubject
               else if l.replySubject == NotFound then Ok
               else l.replySubject;
    if err != Ok then Verdict(err, false, false)
    else if l.cmSender == NotFound then Verdict(l.convert, false, false)
    else if l.cmSender != Ok then Verdict(l.cmSender, false, false)
    else if l.cmSequence == Ok then Verdict(l.convert, true, true)
    else if l.cmSequence == NotFound then Verdict(l.convert, true, false)
    else Verdict(l.cmSequence, true, false)
  }

  /**
   * The status the callback ends with is that of the first lookup that
   * failed, taking each tolerated `NOT_FOUND` as success; the sequence
   * number is looked up only from a certified sender.
   */
  lemma ClassifyIsChain(l: Lookups)
    ensures Classify(l).err ==
      Chain([l.sendSubject, Tolerate(l.replySubject), Tolerate(l.cmSender),
             if l.cmSender == Ok then Tolerate(l.cmSequence) else Ok, l.convert])
  {
    var s := [l.sendSubject, Tolerate(l.replySubject), Tolerate(l.cmSender),
              if l.cmSender == Ok then Tolerate(l.cmSequence) else Ok, l.convert];
    ChainCons(s[0], s[1..]);
    ChainCons(s[1], s[2..]);
    ChainCons(s[2], s[3..]);
    ChainCons(s[3], s[4..]);
    ChainCons(s[4], s[5..]);
    assert s[5..] == [];
  }

  /** What the lookups return when they succeed: the subjects, the text of the message and its sequence number. */
  datatype Fields = Fields(sendSubject: string, replySubject: string, text: string, sequence: nat)

  /** A printed line: subject, reply subject (or `none`), text, whether the sender is certified, and the sequence number if shown. */
  datatype Line = Line(subject: string, reply: string, text: string, certified: bool, sequence: Option<nat>)

  /** The line the callback prints, if any; the 64-bit sequence number is printed through a cast to `tibrv_u32`. */
  function Output(l: Lookups, f: Fields): Option<Line>
  {
    var v := Classify(l);
    if v.err != Ok then None
    else Some(Line(f.sendSubject, if l.replySubject == Ok then f.replySubject else "none", f.text,
                   v.certified, if v.registered then Some(ToU32(f.sequence)) else None))
  }

  /**
   * A line is printed exactly when every lookup succeeded or was tolerated;
   * a failed send-subject lookup prints nothing. The sequence number is shown
   * exactly for a registered listener, always from a certified sender, and
   * is the low 32 bits of the message's number.
   */
  lemma OutputShowsSequenceIffRegistered(l: Lookups, f: Fields)
    ensures Output(l, f).Some? <==> Classify(l).err == Ok
    ensures l.sendSubject != Ok ==> Output(l, f).None?
    ensures Output(l, f).Some? ==>
      var line := Output(l, f).value;
      line.subject == f.sendSubject && line.text == f.text &&
      (line.reply == if l.replySubject == Ok then f.replySubject else "none") &&
      line.certified == (l.cmSender == Ok) &&
      (line.sequence.Some? <==> l.cmSender == Ok && l.cmSequence == Ok) &&
      (line.sequence.Some? ==> line.certified && line.sequence.value == f.sequence % U32_MODULUS)
  {
  }
}
