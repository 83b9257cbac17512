/**
 * The challenge selector of src/lib/daily-challenges.ts: the 30-entry daily pool picked by
 * day of year and year, the 12 monthly entries picked by month, and the single-slot
 * completion markers.
 */
module Challenges {
  import opened Wrappers
  import opened Calendar

  datatype Category = MantraPractice | Meditation | Mindfulness | Devotion

  datatype Challenge = Challenge(
    id: string,
    title: string,
    description: string,
    category: Category,
    targetCount: Option<nat>,
    difficulty: nat)

  /** A monthly challenge carries the month it belongs to, 0 for January. */
  datatype MonthlyChallenge = MonthlyChallenge(challenge: Challenge, month: nat)

  const PREDEFINED_CHALLENGES: seq<Challenge> := [
    Challenge("om-108", "Sacred 108",
      "Chant Om Namah Shivaya 108 times with full concentration",
      MantraPractice, Some(108), 2),
    Challenge("morning-mantras", "Dawn Vibrations",
      "Chant any mantra of your choice for 10 minutes at sunrise",
      MantraPractice, None, 1),
    Challenge("silent-meditation", "Inner Silence",
      "Practice 15 minutes of silent meditation focusing on the space between thoughts",
      Meditation, None, 2),
    Challenge("gratitude-practice", "Heart of Gratitude",
      "Mentally recite 21 things you're grateful for while chanting",
      Mindfulness, Some(21), 1),
    Challenge("continuous-chanting", "Unbroken Flow",
      "Chant continuously for 20 minutes without interruption",
      MantraPractice, None, 2),
    Challenge("breath-mantra", "Breath Synchronization",
      "Synchronize your breath with 54 repetitions of a short mantra",
      MantraPractice, Some(54), 2),
    Challenge("visualization-practice", "Divine Visualization",
      "Visualize a deity or spiritual symbol while chanting 27 mantras",
      Devotion, Some(27), 1),
    Challenge("walking-mantra", "Walking Meditation",
      "Recite mantras while walking mindfully for 10 minutes",
      Mindfulness, None, 1),
    Challenge("selfless-service", "Karma Yoga",
      "Perform an act of service while mentally reciting a mantra",
      Devotion, None, 1),
    Challenge("evening-ritual", "Twilight Sadhana",
      "Create an evening ritual with 108 mantras before sleep",
      MantraPractice, Some(108), 2),
    Challenge("sound-silence", "Sound and Silence",
      "Alternate between chanting aloud and silent meditation for 15 minutes",
      Meditation, None, 2),
    Challenge("intention-setting", "Sacred Intention",
      "Set a specific intention and chant 54 mantras dedicated to it",
      Mindfulness, Some(54), 2),
    Challenge("mantra-writing", "Written Devotion",
      "Write a mantra 11 times while maintaining complete focus",
      Devotion, Some(11), 1),
    Challenge("nature-connection", "Nature Harmony",
      "Practice mantras outdoors near a natural element for 10 minutes",
      Mindfulness, None, 1),
    Challenge("deep-focus", "One-Pointed Focus",
      "Chant 51 mantras with complete concentration on each syllable",
      MantraPractice, Some(51), 3),
    Challenge("moon-meditation", "Lunar Reflection",
      "Meditate and chant under moonlight for 15 minutes",
      Meditation, None, 2),
    Challenge("compassion-mantra", "Boundless Compassion",
      "Recite a compassion mantra while visualizing love spreading to all beings",
      Devotion, None, 2),
    Challenge("dawn-chanting", "Brahma Muhurta",
      "Wake before sunrise and complete 108 mantras in the spiritually charged early hours",
      MantraPractice, Some(108), 3),
    Challenge("mantra-mala", "Complete Mala",
      "Use a mala to complete 108 repetitions with proper technique",
      MantraPractice, Some(108), 2),
    Challenge("mirror-mantra", "Mirror Practice",
      "Chant while looking into your own eyes in a mirror for 5 minutes",
      Mindfulness, None, 2),
    Challenge("group-energy", "Collective Consciousness",
      "Connect energetically with other practitioners by chanting at the same time as others around the world",
      Devotion, None, 1),
    Challenge("elemental-mantras", "Five Elements",
      "Dedicate 21 mantras to each of the 5 elements (earth, water, fire, air, ether)",
      Devotion, Some(105), 3),
    Challenge("chakra-focus", "Energy Centers",
      "Chant while focusing on each of your 7 chakras sequentially",
      Meditation, None, 2),
    Challenge("food-blessing", "Blessed Nourishment",
      "Chant mantras over your food before eating for the entire day",
      Devotion, None, 1),
    Challenge("dream-intention", "Conscious Dreaming",
      "Set an intention to remember your dreams while chanting 27 mantras before sleep",
      Meditation, Some(27), 2),
    Challenge("heart-centered", "Heart Center",
      "Place your hand on your heart while chanting 108 mantras",
      Mindfulness, Some(108), 2),
    Challenge("sound-healing", "Healing Vibrations",
      "Direct mantras as healing energy to any part of your body that needs attention",
      Meditation, None, 2),
    Challenge("water-offering", "Sacred Offering",
      "Offer water to the sun while reciting 11 mantras",
      Devotion, Some(11), 1),
    Challenge("digital-detox", "Sacred Disconnection",
      "Turn off all electronics and practice 30 minutes of mantra chanting",
      Mindfulness, None, 2),
    Challenge("new-mantra", "New Vibration",
      "Learn and practice a mantra you've never chanted before",
      MantraPractice, None, 1)
  ]

  const MONTHLY_CHALLENGES: seq<MonthlyChallenge> := [
    MonthlyChallenge(Challenge("january-new-beginnings", "New Year Intentions",
      "Set your spiritual intentions for the year with 108 mantras",
      Mindfulness, Some(108), 2), 0),
    MonthlyChallenge(Challenge("february-devotion", "Month of Devotion",
      "Practice bhakti (devotion) through 21 consecutive days of heartfelt chanting",
      Devotion, None, 3), 1),
    MonthlyChallenge(Challenge("march-equinox", "Balance of Light",
      "Celebrate the equinox with balancing mantras for 31 minutes",
      Meditation, None, 2), 2),
    MonthlyChallenge(Challenge("april-renewal", "Spring Renewal",
      "Purify your energy with 108 cleansing mantras",
      MantraPractice, Some(108), 2), 3),
    MonthlyChallenge(Challenge("may-abundance", "Flowering Abundance",
      "Practice abundance mantras while visualizing your life in full bloom",
      Mindfulness, None, 1), 4),
    MonthlyChallenge(Challenge("june-light", "Solstice Light",
      "Honor the longest day with 108 sun salutations and mantras",
      Devotion, Some(108), 3), 5),
    MonthlyChallenge(Challenge("july-guru", "Guru Purnima",
      "Honor your teachers and guides with gratitude mantras",
      Devotion, None, 1), 6),
    MonthlyChallenge(Challenge("august-discipline", "Tapas - Spiritual Heat",
      "Build spiritual discipline with 31 days of consistent practice",
      MantraPractice, None, 3), 7),
    MonthlyChallenge(Challenge("september-harvest", "Spiritual Harvest",
      "Reflect on your spiritual growth with gratitude mantras",
      Mindfulness, None, 1), 8),
    MonthlyChallenge(Challenge("october-inner-light", "Inner Lamp",
      "Illuminate your inner darkness with mantras of light",
      Meditation, None, 2), 9),
    MonthlyChallenge(Challenge("november-ancestral", "Ancestral Honoring",
      "Chant mantras dedicated to your ancestors and lineage",
      Devotion, None, 2), 10),
    MonthlyChallenge(Challenge("december-silence", "Sacred Silence",
      "Alternate between mantra chanting and periods of complete silence",
      Meditation, None, 2), 11)
  ]

  /** The pool holds 30 challenges. */
  const POOL_SIZE: nat := 30

  lemma PoolSize()
    ensures |PREDEFINED_CHALLENGES| == POOL_SIZE
  {
  }

  /** The pool index `getTodayChallenge` uses: `(dayOfYear + 365 * year) % 30`. */
  function TodayIndex(dayOfYear: int, year: int): (i: nat)
    ensures i < POOL_SIZE
  {
    (dayOfYear + year * 365) % POOL_SIZE
  }

  /** `getTodayChallenge` on a date and the time elapsed since its midnight. */
  function TodayChallenge(today: Date, msOfDay: nat): (c: Challenge)
    requires ValidDate(today) && msOfDay < MS_PER_DAY
    ensures c in PREDEFINED_CHALLENGES
  {
    PoolSize();
    PREDEFINED_CHALLENGES[TodayIndex(DayOfYear(today, msOfDay), today.year)]
  }

  /**
   * The pool index of a date is `(dayOfYear + 5 * year) mod 30`, `dayOfYear` counting
   * 1 January as 1, whatever the time of day.
   */
  lemma TodayIndexOfDate(today: Date, msOfDay: nat)
    requires ValidDate(today) && msOfDay < MS_PER_DAY
    ensures TodayIndex(DayOfYear(today, msOfDay), today.year)
         == (DaysBeforeMonth(today.year, today.month) + today.day + 5 * today.year) % 30
  {
    var doy := DaysBeforeMonth(today.year, today.month) + today.day;
    assert DayOfYear(today, msOfDay) == doy by { DayOfYearValue(today, msOfDay); }
    YearTerm(doy, today.year);
  }

  /** 365 is 5 more than a multiple of 30. */
  lemma YearTerm(doy: int, year: int)
    ensures (doy + year * 365) % 30 == (doy + 5 * year) % 30
  {
    var a := doy + 5 * year;
    assert doy + year * 365 == a + 30 * (12 * year);
    ShiftByThirties(a, 12 * year);
  }

  lemma ShiftByThirties(a: int, k: int)
    ensures (a + 30 * k) % 30 == a % 30
  {
  }

  /**
   * The challenge depends only on the calendar date, not on the time of day, and is
   * entry `(dayOfYear + 5 * year) mod 30` of the pool.
   */
  lemma TodayChallengeChoice(today: Date, ms1: nat, ms2: nat)
    requires ValidDate(today) && ms1 < MS_PER_DAY && ms2 < MS_PER_DAY
    ensures TodayChallenge(today, ms1) == TodayChallenge(today, ms2)
    ensures TodayChallenge(today, ms1)
         == PREDEFINED_CHALLENGES[(DaysBeforeMonth(today.year, today.month) + today.day + 5 * today.year) % 30]
  {
    TodayIndexOfDate(today, ms1);
    TodayIndexOfDate(today, ms2);
  }

  /**
   * The same day of the year one year later moves the pick 5 positions along the pool, so it
   * is never the same position; the picks repeat only every 6 years.
   */
  lemma YearShift(dayOfYear: int, year: int)
    ensures TodayIndex(dayOfYear, year + 1) == (TodayIndex(dayOfYear, year) + 5) % 30
    ensures TodayIndex(dayOfYear, year + 1) != TodayIndex(dayOfYear, year)
    ensures TodayIndex(dayOfYear, year + 6) == TodayIndex(dayOfYear, year)
  {
    var n := dayOfYear + year * 365;
    assert dayOfYear + (year + 1) * 365 == n + 5 + 30 * 12;
    assert dayOfYear + (year + 6) * 365 == n + 30 * 73;
  }

  /** `getMonthlyChallenge`: `getMonth()` counts from 0. */
  function MonthlyChallengeOf(today: Date): (c: MonthlyChallenge)
    requires ValidDate(today)
    ensures c in MONTHLY_CHALLENGES
  {
    MONTHLY_CHALLENGES[today.month - 1]
  }

  /** Entry `m` of the monthly list is tagged with month `m`, so the pick is this month's. */
  lemma MonthlyTagged(today: Date)
    requires ValidDate(today)
    ensures |MONTHLY_CHALLENGES| == 12
    ensures forall m :: 0 <= m < 12 ==> MONTHLY_CHALLENGES[m].month == m
    ensures MonthlyChallengeOf(today).month == today.month - 1
  {
  }

  // ---------------------------------------------------------------- completion markers

  /** `ChallengeStatus`: the last completed day key and month key, when any. */
  datatype ChallengeStatus = ChallengeStatus(lastCompletedDaily: Option<string>, lastCompletedMonthly: Option<string>)

  /** What `getChallengeStatus` reads when nothing is stored. */
  const EMPTY_STATUS: ChallengeStatus := ChallengeStatus(None, None)

  function StatusOrEmpty(stored: Option<ChallengeStatus>): ChallengeStatus
  {
    stored.GetOr(EMPTY_STATUS)
  }

  predicate IsDailyCompleted(status: ChallengeStatus, today: Date)
    requires KeyDate(today)
  {
    status.lastCompletedDaily == Some(DateKey(today))
  }

  predicate IsMonthlyCompleted(status: ChallengeStatus, today: Date)
    requires KeyDate(today)
  {
    status.lastCompletedMonthly == Some(MonthKey(today))
  }

  function CompleteDaily(status: ChallengeStatus, today: Date): ChallengeStatus
    requires KeyDate(today)
  {
    status.(lastCompletedDaily := Some(DateKey(today)))
  }

  function CompleteMonthly(status: ChallengeStatus, today: Date): ChallengeStatus
    requires KeyDate(today)
  {
    status.(lastCompletedMonthly := Some(MonthKey(today)))
  }

  /** With nothing stored neither challenge counts as completed. */
  lemma EmptyStatusNothingDone(today: Date)
    requires KeyDate(today)
    ensures !IsDailyCompleted(StatusOrEmpty(None), today)
    ensures !IsMonthlyCompleted(StatusOrEmpty(None), today)
  {
  }

  /**
   * After completing the daily challenge on one day, the daily check is true on exactly
   * that day; the monthly marker is untouched; completing again the same day changes nothing.
   */
  lemma CompleteDailyEffect(status: ChallengeStatus, done: Date, today: Date)
    requires KeyDate(done) && KeyDate(today)
    ensures IsDailyCompleted(CompleteDaily(status, done), today) <==> done == today
    ensures CompleteDaily(status, done).lastCompletedMonthly == status.lastCompletedMonthly
    ensures CompleteDaily(CompleteDaily(status, done), done) == CompleteDaily(status, done)
  {
    DateKeyInjective(done, today);
  }

  /**
   * After completing the monthly challenge, the monthly check is true on exactly the days
   * of that month and year; the daily marker is untouched; repeating it changes nothing.
   */
  lemma CompleteMonthlyEffect(status: ChallengeStatus, done: Date, today: Date)
    requires KeyDate(done) && KeyDate(today)
    ensures IsMonthlyCompleted(CompleteMonthly(status, done), today)
        <==> done.year == today.year && done.month == today.month
    ensures CompleteMonthly(status, done).lastCompletedDaily == status.lastCompletedDaily
    ensures CompleteMonthly(CompleteMonthly(status, done), done) == CompleteMonthly(status, done)
  {
    MonthKeySameMonth(done, today);
  }
}
