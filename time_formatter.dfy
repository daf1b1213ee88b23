/**
 * The `system.time.now` to text-to-speech formatter: the hour and minute of the time
 * event become an English phrase in the profile's text.
 */
module TimeToSpeech {
  import opened Wrappers
  import opened Numerals

  /** The text-to-speech profile being filled; `other` stands for its attributes the formatter leaves alone. */
  datatype SpeechProfile<A> = SpeechProfile(text: string, other: A)

  /** The phrase chosen by the if/elif chain on the minute (the noon case first); every phrase opens with "It's ". */
  function Phrase(hour: int, minute: int): string
  {
    "It's " + Spoken(hour, minute)
  }

  function Spoken(hour: int, minute: int): string
  {
    if hour == 12 && minute == 0 then "noon"
    else if minute == 0 then IntToString(hour) + " o'clock"
    else if minute == 15 then "quarter past " + IntToString(hour)
    else if minute == 45 then "quarter to " + IntToString(hour + 1)
    else if minute == 30 then "half past " + IntToString(hour)
    else if minute < 30 then IntToString(minute) + " past " + IntToString(hour)
    else IntToString(60 - minute) + " to " + IntToString(hour + 1)
  }

  /**
   * `_fill_profile`: midnight first writes "It's midnight", then the chain always
   * writes the text again; the same profile comes back with only its text changed.
   */
  function FillProfile<A>(hour: int, minute: int, profile: SpeechProfile<A>): (filled: SpeechProfile<A>)
    ensures filled.other == profile.other
  {
    var profile := if hour == 0 && minute == 0 then profile.(text := "It's midnight") else profile;
    profile.(text := Phrase(hour, minute))
  }

  /** Whatever the profile held, the chain decides the text for every minute. */
  lemma TextIsThePhrase<A>(hour: int, minute: int, profile: SpeechProfile<A>)
    ensures FillProfile(hour, minute, profile) == SpeechProfile(Phrase(hour, minute), profile.other)
  {
  }

  /** 12:00 is noon. */
  lemma Noon<A>(profile: SpeechProfile<A>)
    ensures FillProfile(12, 0, profile).text == "It's noon"
  {
  }

  /** The midnight text is overwritten: 00:00 is read as zero o'clock. */
  lemma MidnightIsOverwritten<A>(profile: SpeechProfile<A>)
    ensures FillProfile(0, 0, profile).text == "It's 0 o'clock"
    ensures FillProfile(0, 0, profile).text != "It's midnight"
  {
    assert IntToString(0) == "0";
  }

  /** "quarter to" names the next hour without wrapping: 23:45 is a quarter to 24. */
  lemma QuarterToDoesNotWrap<A>(profile: SpeechProfile<A>)
    ensures FillProfile(23, 45, profile).text == "It's quarter to 24"
  {
    TwentyFour();
    assert Phrase(23, 45) == "It's " + ("quarter to " + IntToString(24));
  }

  lemma TwentyFour()
    ensures IntToString(24) == "24"
  {
    assert NatToString(24) == NatToString(2) + [DigitChar(4)];
  }

  /** `text.split(' ')`: the words between single spaces, empty words included. */
  function Words(s: string): (ws: seq<string>)
    ensures |ws| >= 1
    decreases |s|
  {
    if |s| == 0 then [""]
    else
      var rest := Words(s[1..]);
      if s[0] == ' ' then [""] + rest
      else [[s[0]] + rest[0]] + rest[1..]
  }

  predicate Spaceless(w: string)
  {
    forall i :: 0 <= i < |w| ==> w[i] != ' '
  }

  /** A word without spaces joins the first word of what follows it. */
  lemma {:induction false} WordsOfPrefix(w: string, t: string)
    requires Spaceless(w)
    ensures Words(w + t) == [w + Words(t)[0]] + Words(t)[1..]
    decreases |w|
  {
    if |w| == 0 {
      assert w + t == t && w + Words(t)[0] == Words(t)[0];
      assert Words(t) == [Words(t)[0]] + Words(t)[1..];
    } else {
      assert (w + t)[0] == w[0];
      assert (w + t)[1..] == w[1..] + t;
      WordsOfPrefix(w[1..], t);
      assert [w[0]] + (w[1..] + Words(t)[0]) == w + Words(t)[0];
    }
  }

  /** A word without spaces followed by a space is the first word. */
  lemma WordsCons(w: string, t: string)
    requires Spaceless(w)
    ensures Words(w + " " + t) == [w] + Words(t)
  {
    assert w + " " + t == w + (" " + t);
    assert (" " + t)[0] == ' ' && (" " + t)[1..] == t;
    assert Words(" " + t) == [""] + Words(t);
    WordsOfPrefix(w, " " + t);
    assert w + "" == w;
  }

  /** A word without spaces is a single word. */
  lemma WordsSingle(w: string)
    requires Spaceless(w)
    ensures Words(w) == [w]
  {
    WordsOfPrefix(w, "");
    assert w + "" == w;
  }

  lemma DigitsSpaceless(n: string)
    requires AllDigits(n)
    ensures Spaceless(n)
  {
  }

  function ReadHour(s: string, shift: int, minute: int): Option<(int, int)>
  {
    if |s| > 0 && AllDigits(s) then Some((ParseNat(s) + shift, minute)) else None
  }

  /** Reads a phrase back into (hour, minute): the listener's side of the formatter. */
  function ReadTime(text: string): Option<(int, int)>
  {
    var ws := Words(text);
    if ws[0] == "It's" then ReadWords(ws[1..]) else None
  }

  /** Reads the words after "It's". */
  function ReadWords(ws: seq<string>): Option<(int, int)>
  {
    if ws == ["noon"] then Some((12, 0))
    else if ws == ["midnight"] then Some((0, 0))
    else if |ws| == 2 && ws[1] == "o'clock" then ReadHour(ws[0], 0, 0)
    else if |ws| != 3 then None
    else if |ws[0]| > 0 && AllDigits(ws[0]) then ReadMinutes(ParseNat(ws[0]), ws[1], ws[2])
    else if ws[0] == "quarter" && ws[1] == "past" then ReadHour(ws[2], 0, 15)
    else if ws[0] == "quarter" && ws[1] == "to" then ReadHour(ws[2], -1, 45)
    else if ws[0] == "half" && ws[1] == "past" then ReadHour(ws[2], 0, 30)
    else None
  }

  /** "<count> past <hour>" or "<count> to <next hour>". */
  function ReadMinutes(count: nat, word: string, hour: string): Option<(int, int)>
  {
    if word == "past" then ReadHour(hour, 0, count)
    else if word == "to" then ReadHour(hour, -1, 60 - count)
    else None
  }

  /** The numeral of a non-negative hour reads back as that hour, shifted. */
  lemma ReadNumeral(n: nat, shift: int, minute: int)
    ensures ReadHour(NatToString(n), shift, minute) == Some((n + shift, minute))
  {
    ParseNatToString(n);
  }

  /** A word starting with a letter is not a numeral. */
  lemma NotNumeral(w: string)
    requires |w| > 0 && !IsDigit(w[0])
    ensures !AllDigits(w)
  {
  }

  /** The o'clock branch spells the hour's numeral before "o'clock". */
  lemma SpokenOClock(hour: nat)
    requires hour != 12
    ensures Spoken(hour, 0) == NatToString(hour) + " " + "o'clock"
  {
  }

  /** A numeral before "o'clock" is two words. */
  lemma OClockWords(n: string)
    requires AllDigits(n)
    ensures Words(n + " " + "o'clock") == [n, "o'clock"]
  {
    DigitsSpaceless(n);
    WordsCons(n, "o'clock");
    WordsSingle("o'clock");
  }

  /** The o'clock branch reads back as (hour, 0). */
  lemma ReadOClock(hour: nat)
    requires hour != 12
    ensures ReadWords(Words(Spoken(hour, 0))) == Some((hour, 0))
  {
    SpokenOClock(hour);
    OClockWords(NatToString(hour));
    ReadNumeral(hour, 0, 0);
  }

  /** The quarter-past branch reads back as (hour, 15). */
  lemma ReadQuarterPast(hour: nat)
    ensures ReadWords(Words(Spoken(hour, 15))) == Some((hour, 15))
  {
    var n := NatToString(hour);
    assert Spoken(hour, 15) == "quarter" + " " + ("past" + " " + n);
    DigitsSpaceless(n);
    WordsSingle(n);
    WordsCons("past", n);
    WordsCons("quarter", "past" + " " + n);
    NotNumeral("quarter");
    ReadNumeral(hour, 0, 15);
  }

  /** The quarter-to branch, which names the next hour, reads back as (hour, 45). */
  lemma ReadQuarterTo(hour: nat)
    ensures ReadWords(Words(Spoken(hour, 45))) == Some((hour, 45))
  {
    var n := NatToString(hour + 1);
    assert Spoken(hour, 45) == "quarter" + " " + ("to" + " " + n);
    DigitsSpaceless(n);
    WordsSingle(n);
    WordsCons("to", n);
    WordsCons("quarter", "to" + " " + n);
    NotNumeral("quarter");
    ReadNumeral(hour + 1, -1, 45);
  }

  /** The half-past branch reads back as (hour, 30). */
  lemma ReadHalfPast(hour: nat)
    ensures ReadWords(Words(Spoken(hour, 30))) == Some((hour, 30))
  {
    var n := NatToString(hour);
    assert Spoken(hour, 30) == "half" + " " + ("past" + " " + n);
    DigitsSpaceless(n);
    WordsSingle(n);
    WordsCons("past", n);
    WordsCons("half", "past" + " " + n);
    NotNumeral("half");
    ReadNumeral(hour, 0, 30);
  }

  /** Two numerals around a word are three words. */
  lemma NumeralsAroundWord(m: nat, word: string, h: nat)
    requires Spaceless(word)
    ensures Words(NatToString(m) + " " + (word + " " + NatToString(h))) == [NatToString(m), word, NatToString(h)]
  {
    DigitsSpaceless(NatToString(m));
    DigitsSpaceless(NatToString(h));
    WordsSingle(NatToString(h));
    WordsCons(word, NatToString(h));
    WordsCons(NatToString(m), word + " " + NatToString(h));
  }

  /** Three words opening with a numeral are read as a minute count, a word and an hour. */
  lemma ReadNumeralWords(ms: string, word: string, n: string)
    requires |ms| > 0 && AllDigits(ms)
    ensures ReadWords([ms, word, n]) == ReadMinutes(ParseNat(ms), word, n)
  {
  }

  /** The numerals of "<minutes> past <hour>" read back as (hour, minute). */
  lemma ReadPastNumerals(hour: nat, minute: nat)
    ensures ReadMinutes(ParseNat(NatToString(minute)), "past", NatToString(hour)) == Some((hour, minute))
  {
    ParseNatToString(minute);
    ReadNumeral(hour, 0, minute);
  }

  /** The numerals of "<60 - minutes> to <hour + 1>" read back as (hour, minute). */
  lemma ReadToNumerals(hour: nat, minute: int)
    requires 0 < minute < 60
    ensures ReadMinutes(ParseNat(NatToString(60 - minute)), "to", NatToString(hour + 1)) == Some((hour, minute))
  {
    ParseNatToString(60 - minute);
    ReadNumeral(hour + 1, -1, minute);
  }

  /** Before half past, other than a quarter past, the minutes are counted past the hour. */
  lemma SpokenPast(hour: nat, minute: int)
    requires 0 < minute < 30 && minute != 15
    ensures Spoken(hour, minute) == NatToString(minute) + " " + ("past" + " " + NatToString(hour))
  {
  }

  /** After half past, other than a quarter to, the minutes left are counted to the next hour. */
  lemma SpokenTo(hour: nat, minute: int)
    requires 30 < minute < 60 && minute != 45
    ensures Spoken(hour, minute) == NatToString(60 - minute) + " " + ("to" + " " + NatToString(hour + 1))
  {
  }

  /** The "<minutes> past <hour>" branch reads back as (hour, minute). */
  lemma ReadMinutesPast(hour: nat, minute: int)
    requires 0 < minute < 30 && minute != 15
    ensures ReadWords(Words(Spoken(hour, minute))) == Some((hour, minute))
  {
    var ms, n := NatToString(minute), NatToString(hour);
    SpokenPast(hour, minute);
    NumeralsAroundWord(minute, "past", hour);
    ReadNumeralWords(ms, "past", n);
    ReadPastNumerals(hour, minute);
  }

  /** The "<60 - minutes> to <hour + 1>" branch reads back as (hour, minute). */
  lemma ReadMinutesTo(hour: nat, minute: int)
    requires 30 < minute < 60 && minute != 45
    ensures ReadWords(Words(Spoken(hour, minute))) == Some((hour, minute))
  {
    var ms, n := NatToString(60 - minute), NatToString(hour + 1);
    SpokenTo(hour, minute);
    NumeralsAroundWord(60 - minute, "to", hour + 1);
    ReadNumeralWords(ms, "to", n);
    ReadToNumerals(hour, minute);
  }

  /** Every spoken part of a time of day reads back as that time. */
  lemma ReadSpoken(hour: nat, minute: int)
    requires 0 <= minute < 60
    ensures ReadWords(Words(Spoken(hour, minute))) == Some((hour, minute))
  {
    if hour == 12 && minute == 0 {
      assert Spoken(hour, minute) == "noon";
      WordsSingle("noon");
    } else if minute == 0 {
      ReadOClock(hour);
    } else if minute == 15 {
      ReadQuarterPast(hour);
    } else if minute == 45 {
      ReadQuarterTo(hour);
    } else if minute == 30 {
      ReadHalfPast(hour);
    } else if minute < 30 {
      ReadMinutesPast(hour, minute);
    } else {
      ReadMinutesTo(hour, minute);
    }
  }

  /** "It's" is the first word, and the rest are read after it. */
  lemma ReadAfterIts(rest: string)
    ensures ReadTime("It's" + " " + rest) == ReadWords(Words(rest))
  {
    WordsCons("It's", rest);
    assert Words("It's" + " " + rest)[1..] == Words(rest);
  }

  /** Every phrase of a time of day reads back as that time. */
  lemma ReadPhrase(hour: nat, minute: int)
    requires 0 <= minute < 60
    ensures ReadTime(Phrase(hour, minute)) == Some((hour, minute))
  {
    assert Phrase(hour, minute) == "It's" + " " + Spoken(hour, minute);
    ReadAfterIts(Spoken(hour, minute));
    ReadSpoken(hour, minute);
  }

  /** Different times of day are spoken differently. */
  lemma PhraseDistinguishesTimes(h1: nat, m1: int, h2: nat, m2: int)
    requires 0 <= m1 < 60 && 0 <= m2 < 60
    requires Phrase(h1, m1) == Phrase(h2, m2)
    ensures h1 == h2 && m1 == m2
  {
    ReadPhrase(h1, m1);
    ReadPhrase(h2, m2);
  }

  /** The text the midnight branch evidently means to leave: "It's midnight" at 00:00, the chain's phrase otherwise. */
  function IntendedPhrase(hour: int, minute: int): string
  {
    if hour == 0 && minute == 0 then "It's midnight" else Phrase(hour, minute)
  }

  /** `_fill_profile` with the midnight text kept instead of overwritten. */
  function IntendedFillProfile<A>(hour: int, minute: int, profile: SpeechProfile<A>): (filled: SpeechProfile<A>)
    ensures filled.other == profile.other
    ensures hour == 0 && minute == 0 ==> filled.text == "It's midnight"
    ensures !(hour == 0 && minute == 0) ==> filled == FillProfile(hour, minute, profile)
  {
    profile.(text := IntendedPhrase(hour, minute))
  }

  /** "It's midnight" reads back as 00:00. */
  lemma ReadMidnight()
    ensures ReadTime("It's midnight") == Some((0, 0))
  {
    assert "It's midnight" == "It's" + " " + "midnight";
    ReadAfterIts("midnight");
    MidnightWord();
  }

  lemma MidnightWord()
    ensures Words("midnight") == ["midnight"]
  {
    WordsSingle("midnight");
  }

  /** With midnight kept, every phrase still reads back as its time of day. */
  lemma ReadIntendedPhrase(hour: nat, minute: int)
    requires 0 <= minute < 60
    ensures ReadTime(IntendedPhrase(hour, minute)) == Some((hour, minute))
  {
    if hour == 0 && minute == 0 {
      ReadMidnight();
    } else {
      ReadPhrase(hour, minute);
    }
  }

  /** With midnight kept, different times of day are still spoken differently. */
  lemma IntendedPhraseDistinguishesTimes(h1: nat, m1: int, h2: nat, m2: int)
    requires 0 <= m1 < 60 && 0 <= m2 < 60
    requires IntendedPhrase(h1, m1) == IntendedPhrase(h2, m2)
    ensures h1 == h2 && m1 == m2
  {
    ReadIntendedPhrase(h1, m1);
    ReadIntendedPhrase(h2, m2);
  }
}
