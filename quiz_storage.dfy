/** Per-date quiz progress kept in browser storage (lib/quiz-storage.ts): one JSON map from a
    date to `{score, completed, timestamp}`, stored under a single key and rewritten as a
    whole on every save. */
module QuizStorage {
  import opened Wrappers

  /** The one storage key all progress lives under. */
  const STORAGE_KEY: string := "se-games.g1.progress"

  datatype Progress = Progress(score: int, completed: bool, timestamp: int)

  /** What `localStorage.getItem` can hand back for a key: a JSON text that parses to a
      progress map, or one that does not parse. */
  datatype StoredValue = Parsed(progress: map<string, Progress>) | Unparseable

  /** `getQuizProgress()` on a storage snapshot: the stored map, or the empty map outside a
      browser, when nothing is stored, or when the stored text does not parse. */
  function ReadProgress(inBrowser: bool, local: map<string, StoredValue>): (r: map<string, Progress>)
    ensures !inBrowser || STORAGE_KEY !in local || local[STORAGE_KEY] == Unparseable ==> r == map[]
    ensures inBrowser && STORAGE_KEY in local && local[STORAGE_KEY].Parsed? ==> r == local[STORAGE_KEY].progress
  {
    if !inBrowser || STORAGE_KEY !in local then map[]
    else match local[STORAGE_KEY]
      case Parsed(m) => m
      case Unparseable => map[]
  }

  /** The storage after `saveQuizProgress(date, score)` at time `now`: read the map, set the
      date's entry to a completed record, write the whole map back under the one key.
      Reading back gives the old map with that one entry replaced; every other storage key
      keeps its value; outside a browser nothing changes. */
  function WriteProgress(inBrowser: bool, local: map<string, StoredValue>, date: string, score: int, now: int): (r: map<string, StoredValue>)
    ensures inBrowser ==> ReadProgress(inBrowser, r) == ReadProgress(inBrowser, local)[date := Progress(score, true, now)]
    ensures !inBrowser ==> r == local
    ensures forall k :: k != STORAGE_KEY ==> (k in r <==> k in local) && (k in r ==> r[k] == local[k])
  {
    if !inBrowser then local
    else local[STORAGE_KEY := Parsed(ReadProgress(inBrowser, local)[date := Progress(score, true, now)])]
  }

  /** Saving one date never disturbs another: its completion flag and score read back as
      before. */
  lemma WriteKeepsOtherDates(inBrowser: bool, local: map<string, StoredValue>, date: string, score: int, now: int, other: string)
    requires other != date
    ensures var after := ReadProgress(inBrowser, WriteProgress(inBrowser, local, date, score, now));
      var before := ReadProgress(inBrowser, local);
      (other in after <==> other in before) && (other in after ==> after[other] == before[other])
  {
  }

  /** Browser storage as seen by the progress functions. Outside a browser (server
      rendering) there is no storage at all. */
  class ProgressStore {
    const inBrowser: bool
    var local: map<string, StoredValue>

    constructor (inBrowser: bool, local: map<string, StoredValue>)
      ensures this.inBrowser == inBrowser && this.local == local
    {
      this.inBrowser := inBrowser;
      this.local := local;
    }

    /** `getQuizProgress()`. */
    function GetQuizProgress(): (r: map<string, Progress>)
      reads this
      ensures r == ReadProgress(inBrowser, local)
    {
      ReadProgress(inBrowser, local)
    }

    /** `isQuizCompleted(date)`: the stored flag, false for a date never saved. */
    function IsQuizCompleted(date: string): (r: bool)
      reads this
      ensures r <==> date in GetQuizProgress() && GetQuizProgress()[date].completed
    {
      var progress := GetQuizProgress();
      date in progress && progress[date].completed
    }

    /** `getQuizScore(date)`: the stored score, or null for a date never saved. */
    function GetQuizScore(date: string): (r: Option<int>)
      reads this
      ensures r.None? <==> date !in GetQuizProgress()
      ensures r.Some? ==> r.value == GetQuizProgress()[date].score
    {
      var progress := GetQuizProgress();
      if date in progress then Some(progress[date].score) else None
    }

    /** `saveQuizProgress(date, score)` at time `now`: afterwards the date reads back as
        completed with that score, and every other date reads back as before. */
    method SaveQuizProgress(date: string, score: int, now: int)
      modifies this
      ensures local == WriteProgress(inBrowser, old(local), date, score, now)
      ensures inBrowser ==> IsQuizCompleted(date) && GetQuizScore(date) == Some(score)
      ensures forall d :: d != date ==> IsQuizCompleted(d) == old(IsQuizCompleted(d)) && GetQuizScore(d) == old(GetQuizScore(d))
    {
      if !inBrowser {
        return;
      }
      var progress := GetQuizProgress();
      progress := progress[date := Progress(score, true, now)];
      local := local[STORAGE_KEY := Parsed(progress)];
    }
  }
}
