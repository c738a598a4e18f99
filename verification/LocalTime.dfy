/** server/src/SNSServer.cpp: timestamps as text.  The host's time zone is a
    parameter: `format` is `timestampToStr`, `parse` is `strToSeconds`, with
    `None` for the exception on unreadable text. */
module LocalTime {
  import opened Text
  import opened Social

  datatype Zone = Zone(format: int -> string, parse: string -> Option<int>)
  {
    function Str(t: Timestamp): string
    {
      format(t.seconds)
    }

    /** `strToTimestamp`: whole seconds only. */
    function Read(s: string): Option<Timestamp>
    {
      match parse(s)
      case Some(seconds) => Some(Timestamp(seconds, 0))
      case None => None
    }

    /** This timestamp survives being written down. */
    predicate Faithful(t: Timestamp)
    {
      Read(Str(t)) == Some(t)
    }

    /** Dates print as one word, as `%Y-%m-%dT%H:%M:%S` does. */
    ghost predicate PrintsWords()
    {
      forall seconds: int :: Word(format(seconds))
    }
  }

  /** A timestamp survives exactly if it is a whole second that the zone reads back
      as it was printed. */
  lemma FaithfulIff(z: Zone, t: Timestamp)
    ensures z.Faithful(t) <==> z.parse(z.format(t.seconds)) == Some(t.seconds) && t.nanos == 0
  {
  }

  /** The zone reads back every second that it prints. */
  ghost predicate TellsTime(z: Zone)
  {
    forall seconds: int :: z.parse(z.format(seconds)) == Some(seconds)
  }

  /** One argument of a log line. */
  predicate Word(s: string)
  {
    s != [] && ' ' !in s && '\n' !in s
  }
}
