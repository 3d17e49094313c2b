/** app/calendar/config.py, `parse_config`: every entry that is written is in the configuration, and what is left out has its default. */
module ConfigMeaning {
  import opened PyText
  import opened CalendarTime
  import opened CalendarConfig
  import opened ConfigParser

  // ----- sections -----

  /** The member has an entry for the key. */
  ghost predicate Gives<K(!new), V(!new)>(m: Member, read: Member -> Result<Option<(K, V)>, Error>, k: K) {
    exists v :: read(m) == Success(Some((k, v)))
  }

  /** The last entry written for a key is the one in the dictionary. */
  lemma {:induction false} LastEntryWins<K(!new), V(!new)>(members: seq<Member>, read: Member -> Result<Option<(K, V)>, Error>,
                                                           i: nat, k: K, v: V)
    requires Fold(members, read).Success? && i < |members| && read(members[i]) == Success(Some((k, v)))
    requires forall j | i < j < |members| :: !Gives(members[j], read, k)
    ensures k in Fold(members, read).value && Fold(members, read).value[k] == v
  {
    var n := |members| - 1;
    if i < n {
      LastEntryWins(members[..n], read, i, k, v);
      assert !Gives(members[n], read, k);
      if read(members[n]).value.Some? {
        var (j, w) := read(members[n]).value.value;
        assert read(members[n]) == Success(Some((j, w)));
      }
    }
  }

  /** A section is refused exactly if some entry is, and the first such entry says why. */
  lemma {:induction false} FirstErrorCounts<K, V>(members: seq<Member>, read: Member -> Result<Option<(K, V)>, Error>)
    ensures Fold(members, read).Failure? <==> exists i | 0 <= i < |members| :: read(members[i]).Failure?
    ensures forall i | 0 <= i < |members| && read(members[i]).Failure? && (forall j | 0 <= j < i :: read(members[j]).Success?) ::
              Fold(members, read) == Failure(read(members[i]).error)
  {
    if members != [] {
      var n := |members| - 1;
      var front := members[..n];
      FirstErrorCounts(front, read);
      assert forall i | 0 <= i < n :: front[i] == members[i];
      if Fold(front, read).Failure? {
        var i :| 0 <= i < n && read(front[i]).Failure?;
        assert read(members[i]).Failure?;
      }
      forall i | 0 <= i < |members| && read(members[i]).Failure? && (forall j | 0 <= j < i :: read(members[j]).Success?)
        ensures Fold(members, read) == Failure(read(members[i]).error)
      {
        if i < n {
          assert read(front[i]).Failure? && forall j | 0 <= j < i :: read(front[j]).Success?;
        }
      }
    }
  }

  // ----- what is left out -----

  /** The member is missing, or counts as false. */
  predicate IsLeftOut(members: seq<Member>, key: string) {
    match Find(members, key)
    case None => true
    case Some(j) => !IsTruthy(j)
  }

  lemma {:induction false} SectionLeftOut<K, V>(members: seq<Member>, key: string, read: Member -> Result<Option<(K, V)>, Error>)
    requires IsLeftOut(members, key)
    ensures ReadSection(members, key, read) == Success(map[])
  {
  }

  /** An accepted payload may leave out everything but the periods, which then is empty or has its default value. */
  lemma {:induction false} DefaultsAre(members: seq<Member>, dates: Dates)
    requires Parse(Object(members), dates).Success?
    ensures var c := Parse(Object(members), dates).value;
            && !IsLeftOut(members, "periods")
            && (IsLeftOut(members, "period_source") ==> c.periodSource == map[])
            && (IsLeftOut(members, "block_codes") ==> c.blockCodes == map[])
            && (IsLeftOut(members, "day_code_map") ==> c.dayCodeMap == map[])
            && (IsLeftOut(members, "terms") ==> c.terms == map[])
            && (IsLeftOut(members, "student_week_offset") ==> c.studentWeekOffset == map[])
            && (Find(members, "on_conflict") == None ==> c.onConflict == "trust_course")
            && (Find(members, "version") == None ==> c.version == 1)
  {
    var grid := ReadGrid(members).value;
    hide Find, ReadTerm, ReadBlock, ReadSource, ReadDay, ReadPeriod, IsInjective, Fold, ReadOffset;
    if IsLeftOut(members, "periods") {
      SectionLeftOut(members, "periods", ReadPeriod);
    }
    if IsLeftOut(members, "period_source") {
      SectionLeftOut(members, "period_source", ReadSource);
    }
    if IsLeftOut(members, "block_codes") {
      SectionLeftOut(members, "block_codes", (m: Member) => ReadBlock(m, grid.periods.Keys));
    }
    if IsLeftOut(members, "day_code_map") {
      SectionLeftOut(members, "day_code_map", ReadDay);
    }
    if IsLeftOut(members, "terms") {
      SectionLeftOut(members, "terms", (m: Member) => ReadTerm(dates, m));
    }
    if IsLeftOut(members, "student_week_offset") {
      SectionLeftOut(members, "student_week_offset", ReadOffset);
    }
    TrustIsPlain();
  }

  lemma {:induction false} TrustIsPlain()
    ensures Strip("trust_course") == "trust_course"
  {
    StripKeeps("trust_course", IsSpace);
  }

  // ----- what is written -----

  /** A period that is written under a number is the one of the configuration, unless it is written again. */
  lemma {:induction false} WrittenPeriod(members: seq<Member>, dates: Dates, i: nat, n: int, start: string, end: string)
    requires Parse(Object(members), dates).Success?
    requires Section(members, "periods").Success?
    requires var section := Section(members, "periods").value;
             && i < |section| && section[i].value == Array([Text(start), Text(end)]) && ParseInt(section[i].key) == Some(n)
             && forall j | i < j < |section| :: ParseInt(section[j].key) != Some(n)
    ensures var c := Parse(Object(members), dates).value;
            n in c.periods && c.periods[n] == (Strip(start), Strip(end))
  {
    var section := Section(members, "periods").value;
    hide Section, ReadTimes, ParseInt, IsClock, Less, Strip, IsPeriodKey;
    assert Fold(section, ReadPeriod).Success?;
    FirstErrorCounts(section, ReadPeriod);
    hide Parse, Fold;
    assert ReadPeriod(section[i]).Success?;
    PeriodIs(section[i], n, start, end);
    forall j | i < j < |section| ensures !Gives(section[j], ReadPeriod, n) {
      OtherPeriod(section[j], n);
    }
    hide ReadPeriod;
    LastEntryWins(section, ReadPeriod, i, n, (Strip(start), Strip(end)));
    PeriodsAreSection(members, dates);
  }

  lemma {:induction false} PeriodIs(m: Member, n: int, start: string, end: string)
    requires ReadPeriod(m).Success? && m.value == Array([Text(start), Text(end)]) && ParseInt(m.key) == Some(n)
    ensures ReadPeriod(m) == Success(Some((n, (Strip(start), Strip(end)))))
  {
    hide ParseInt, IsClock, Less, Strip;
  }

  lemma {:induction false} OtherPeriod(m: Member, n: int)
    requires ParseInt(m.key) != Some(n)
    ensures !Gives(m, ReadPeriod, n)
  {
    hide ParseInt, ReadTimes;
  }

  lemma {:induction false} PeriodsAreSection(members: seq<Member>, dates: Dates)
    requires Parse(Object(members), dates).Success?
    ensures Section(members, "periods").Success?
    ensures Fold(Section(members, "periods").value, ReadPeriod) == Success(Parse(Object(members), dates).value.periods)
  {
    hide Section, Fold, ReadPeriod;
  }

  /** The blocks, weekdays and terms are the sections too. */
  lemma {:induction false} DictionariesAreSections(members: seq<Member>, dates: Dates)
    requires Parse(Object(members), dates).Success?
    ensures var c := Parse(Object(members), dates).value;
            && ReadSection(members, "block_codes", (m: Member) => ReadBlock(m, c.periods.Keys)) == Success(c.blockCodes)
            && ReadSection(members, "day_code_map", ReadDay) == Success(c.dayCodeMap)
            && ReadSection(members, "terms", (m: Member) => ReadTerm(dates, m)) == Success(c.terms)
  {
    hide ReadSection, ReadPeriod, ReadSource, ReadBlock, ReadDay, ReadTerm, ReadOffsets, ReadConflict, ReadVersion, IsInjective;
  }

  /** A term that is read: what it leaves out starts on its Monday, lasts twenty weeks, and has no exceptions. */
  lemma {:induction false} TermIs(dates: Dates, key: string, item: seq<Member>, d: Date)
    requires ReadTerm(dates, Member(key, Object(item))).Success?
    requires Find(item, "monday").Some? && dates.read(Strip(TextOf(Find(item, "monday").value))) == Some(d)
    ensures var r := ReadTerm(dates, Member(key, Object(item))).value;
            && r.Some? && r.value.0 == key && r.value.1.semester == key && r.value.1.monday == d && d % 7 == 1
            && (match Find(item, "teaching_start")
                case None => r.value.1.teachingStart == d
                case Some(j) => dates.read(Strip(TextOf(j))) == Some(r.value.1.teachingStart))
            && (match Find(item, "weeks")
                case None => r.value.1.weeks == 20
                case Some(j) => IntOf(j) == Some(r.value.1.weeks))
            && (IsLeftOut(item, "exdates") ==> r.value.1.exdates == [])
  {
    hide Find, IsSemester, TextOf, Strip, ParseInt;
    assert IntOf(Number(20)) == Some(20);
  }

  lemma {:induction false} OtherTerm(dates: Dates, m: Member, key: string)
    requires m.key != key
    ensures !Gives(m, (m: Member) => ReadTerm(dates, m), key)
  {
    hide IsSemester, Find, TextOf, IntOf, ReadDates, Iterated;
  }

  /** A term that is written is the one of the configuration, with the defaults for what it leaves out. */
  lemma {:induction false} WrittenTerm(members: seq<Member>, dates: Dates, i: nat, key: string, item: seq<Member>, d: Date)
    requires Parse(Object(members), dates).Success?
    requires Section(members, "terms").Success?
    requires var section := Section(members, "terms").value;
             && i < |section| && section[i] == Member(key, Object(item)) && forall j | i < j < |section| :: section[j].key != key
    requires Find(item, "monday").Some? && dates.read(Strip(TextOf(Find(item, "monday").value))) == Some(d)
    ensures var c := Parse(Object(members), dates).value;
            && key in c.terms && c.terms[key].monday == d
            && (Find(item, "teaching_start") == None ==> c.terms[key].teachingStart == d)
            && (Find(item, "weeks") == None ==> c.terms[key].weeks == 20)
            && (forall n: int | Find(item, "weeks") == Some(Number(n)) :: c.terms[key].weeks == n)
            && (IsLeftOut(item, "exdates") ==> c.terms[key].exdates == [])
  {
    var section := Section(members, "terms").value;
    DictionariesAreSections(members, dates);
    hide Parse, Section, IsLeftOut, Find, Strip, TextOf, Fold;
    TermEntry(section, dates, i, key, item, d);
  }

  lemma {:induction false} TermEntry(section: seq<Member>, dates: Dates, i: nat, key: string, item: seq<Member>, d: Date)
    requires Fold(section, (m: Member) => ReadTerm(dates, m)).Success?
    requires i < |section| && section[i] == Member(key, Object(item)) && forall j | i < j < |section| :: section[j].key != key
    requires Find(item, "monday").Some? && dates.read(Strip(TextOf(Find(item, "monday").value))) == Some(d)
    ensures var terms := Fold(section, (m: Member) => ReadTerm(dates, m)).value;
            && key in terms && terms[key].monday == d
            && (Find(item, "teaching_start") == None ==> terms[key].teachingStart == d)
            && (Find(item, "weeks") == None ==> terms[key].weeks == 20)
            && (forall n: int | Find(item, "weeks") == Some(Number(n)) :: terms[key].weeks == n)
            && (IsLeftOut(item, "exdates") ==> terms[key].exdates == [])
  {
    var read := (m: Member) => ReadTerm(dates, m);
    hide IsLeftOut, Find, Strip, TextOf, Fold;
    FirstErrorCounts(section, read);
    assert read(section[i]).Success?;
    TermIs(dates, key, item, d);
    forall j | i < j < |section| ensures !Gives(section[j], read, key) {
      OtherTerm(dates, section[j], key);
    }
    var t := ReadTerm(dates, section[i]).value.value.1;
    hide ReadTerm;
    LastEntryWins(section, read, i, key, t);
  }

  /** A weekday that is written under a code is the one of the configuration, in either case and with blanks around it. */
  lemma {:induction false} WrittenWeekday(members: seq<Member>, dates: Dates, i: nat, key: string, token: string)
    requires Parse(Object(members), dates).Success?
    requires Section(members, "day_code_map").Success?
    requires var section := Section(members, "day_code_map").value;
             && i < |section| && section[i] == Member(key, Text(token)) && forall j | i < j < |section| :: section[j].key != key
    ensures var c := Parse(Object(members), dates).value;
            key in c.dayCodeMap && c.dayCodeMap[key] == Upper(Strip(token))
  {
    var section := Section(members, "day_code_map").value;
    DictionariesAreSections(members, dates);
    hide Parse, Section, Strip, Upper;
    assert Fold(section, ReadDay).Success?;
    FirstErrorCounts(section, ReadDay);
    assert ReadDay(section[i]).Success?;
    assert forall j | i < j < |section| :: !Gives(section[j], ReadDay, key);
    hide Fold;
    LastEntryWins(section, ReadDay, i, key, Upper(Strip(token)));
  }
}
