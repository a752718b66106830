/**
 * The library page (src/app/library/page.tsx): the three-stage filter, six-per-page pagination,
 * the local update after a delete, the subject list, the display mappings and the hand-off of a
 * question set to the practice page.
 */
module Library {
  import opened Wrappers
  import opened Seqs
  import opened Strings
  import opened Quiz
  import Api

  /** `title` or `subject` contains the search term, letters compared case-insensitively. */
  predicate MatchesSearch(qs: Api.QuestionSet, term: string) {
    Contains(Lower(qs.title), Lower(term)) || Contains(Lower(qs.subject), Lower(term))
  }

  /** `'all'` lets every set through; otherwise the set's difficulty must be present and equal. */
  predicate MatchesDifficulty(qs: Api.QuestionSet, filter: string) {
    filter == "all" || qs.difficulty == Some(filter)
  }

  predicate MatchesSubject(qs: Api.QuestionSet, filter: string) {
    filter == "all" || qs.subject == filter
  }

  /** The condition a set must meet to be listed: all three filters at once. */
  predicate PassesFilters(qs: Api.QuestionSet, term: string, difficulty: string, subject: string) {
    MatchesSearch(qs, term) && MatchesDifficulty(qs, difficulty) && MatchesSubject(qs, subject)
  }

  /** The listed sets: those passing every filter, in their stored order. */
  function Filtered(sets: seq<Api.QuestionSet>, term: string, difficulty: string, subject: string): (r: seq<Api.QuestionSet>)
    ensures |r| <= |sets|
    ensures forall i :: 0 <= i < |r| ==> PassesFilters(r[i], term, difficulty, subject)
  {
    Filter(sets, qs => PassesFilters(qs, term, difficulty, subject))
  }

  /** Any predicate that agrees with the three filters selects the filtered list. */
  lemma FilteredBy(sets: seq<Api.QuestionSet>, term: string, difficulty: string, subject: string, p: Api.QuestionSet -> bool)
    requires forall qs :: p(qs) == PassesFilters(qs, term, difficulty, subject)
    ensures Filter(sets, p) == Filtered(sets, term, difficulty, subject)
  {
    FilterExt(sets, p, qs => PassesFilters(qs, term, difficulty, subject));
  }

  /**
   * The filtered list is an order-preserving sub-list of the stored sets; it holds exactly the
   * stored sets that pass every filter, each as often as it is stored.
   */
  lemma FilteredSpec(sets: seq<Api.QuestionSet>, term: string, difficulty: string, subject: string)
    ensures IsSubsequence(Filtered(sets, term, difficulty, subject), sets)
    ensures forall i :: 0 <= i < |Filtered(sets, term, difficulty, subject)| ==>
      PassesFilters(Filtered(sets, term, difficulty, subject)[i], term, difficulty, subject)
    ensures forall qs :: qs in Filtered(sets, term, difficulty, subject) <==> qs in sets && PassesFilters(qs, term, difficulty, subject)
    ensures forall qs :: PassesFilters(qs, term, difficulty, subject) ==>
      multiset(Filtered(sets, term, difficulty, subject))[qs] == multiset(sets)[qs]
  {
    FilterKeeps(sets, qs => PassesFilters(qs, term, difficulty, subject));
  }

  /** With an empty search term and both selectors on `'all'`, every stored set is listed. */
  lemma NoFiltersListsAll(sets: seq<Api.QuestionSet>)
    ensures Filtered(sets, "", "all", "all") == sets
  {
    forall qs: Api.QuestionSet ensures PassesFilters(qs, "", "all", "all") {
      ContainsEmpty(Lower(qs.title));
    }
    FilterAll(sets, qs => PassesFilters(qs, "", "all", "all"));
  }

  /** The page size, `itemsPerPage`. */
  const PageSize: nat := 6

  /** `Math.ceil(n / itemsPerPage)`: the fewest pages of six that hold `n` items. */
  function TotalPages(n: nat): (t: nat)
    ensures n <= t * PageSize
    ensures t > 0 ==> (t - 1) * PageSize < n
  {
    (n + PageSize - 1) / PageSize
  }

  function Min(a: int, b: int): int {
    if a <= b then a else b
  }

  /** `slice((p - 1) * 6, p * 6)`, which JavaScript clamps to the list's length. */
  function Page(items: seq<Api.QuestionSet>, p: nat): (r: seq<Api.QuestionSet>)
    requires p >= 1
    ensures |r| <= PageSize
    ensures forall i :: 0 <= i < |r| ==> (p - 1) * PageSize + i < |items| && r[i] == items[(p - 1) * PageSize + i]
    ensures p <= TotalPages(|items|) ==> r != []
    ensures p * PageSize <= |items| ==> |r| == PageSize
    ensures |r| == Min(p * PageSize, |items|) - Min((p - 1) * PageSize, |items|)
  {
    var lo := Min((p - 1) * PageSize, |items|);
    var hi := Min(p * PageSize, |items|);
    items[lo..hi]
  }

  /** Pages `1..k`, one after the other. */
  function Pages(items: seq<Api.QuestionSet>, k: nat): seq<Api.QuestionSet> {
    if k == 0 then [] else Pages(items, k - 1) + Page(items, k)
  }

  /** The first `k` pages are the first `k * 6` items (or all of them). */
  lemma {:induction false} PagesPrefix(items: seq<Api.QuestionSet>, k: nat)
    ensures Pages(items, k) == items[..Min(k * PageSize, |items|)]
  {
    if k > 0 {
      PagesPrefix(items, k - 1);
      var a, b := Min((k - 1) * PageSize, |items|), Min(k * PageSize, |items|);
      assert items[..b] == items[..a] + items[a..b];
    }
  }

  /** Pages `1..totalPages` together rebuild the filtered list. */
  lemma PagesRebuildList(items: seq<Api.QuestionSet>)
    ensures Pages(items, TotalPages(|items|)) == items
  {
    PagesPrefix(items, TotalPages(|items|));
  }

  /** `Math.max(1, Math.min(page, totalPages))`. */
  function ClampPage(p: int, total: nat): (r: nat)
    ensures r >= 1
    ensures total >= 1 ==> r <= total
    ensures 1 <= p <= total ==> r == p
    ensures p < 1 || total == 0 ==> r == 1
    ensures p > total >= 1 ==> r == total
  {
    var m := if p <= total then p else total;
    if m < 1 then 1 else m
  }

  /** `sets.filter(set => set.id !== id)`. */
  function RemoveId(sets: seq<Api.QuestionSet>, id: string): (r: seq<Api.QuestionSet>)
    ensures |r| <= |sets|
    ensures forall i :: 0 <= i < |r| ==> r[i].id != id
  {
    Filter(sets, (qs: Api.QuestionSet) => qs.id != id)
  }

  /** After a delete no set carries the id, every other set remains as often as before, and the order is kept. */
  lemma RemoveIdSpec(sets: seq<Api.QuestionSet>, id: string)
    ensures forall i :: 0 <= i < |RemoveId(sets, id)| ==> RemoveId(sets, id)[i].id != id
    ensures forall qs: Api.QuestionSet :: qs.id != id ==> multiset(RemoveId(sets, id))[qs] == multiset(sets)[qs]
    ensures IsSubsequence(RemoveId(sets, id), sets)
  {
    FilterKeeps(sets, (qs: Api.QuestionSet) => qs.id != id);
  }

  /**
   * Removing the deleted set from the listed sets gives what the filter effect computes from the
   * stored sets after the removal, so the page's two updates agree.
   */
  lemma DeleteCommutesWithFilter(sets: seq<Api.QuestionSet>, id: string, term: string, difficulty: string, subject: string)
    ensures RemoveId(Filtered(sets, term, difficulty, subject), id) == Filtered(RemoveId(sets, id), term, difficulty, subject)
  {
    FilterCommute(sets, qs => PassesFilters(qs, term, difficulty, subject), (qs: Api.QuestionSet) => qs.id != id);
  }

  function Subjects(sets: seq<Api.QuestionSet>): (r: seq<string>)
    ensures |r| == |sets| && forall i :: 0 <= i < |sets| ==> r[i] == sets[i].subject
  {
    seq(|sets|, i requires 0 <= i < |sets| => sets[i].subject)
  }

  /** `[...new Set(quizSets.map(set => set.subject))].filter(Boolean)`. */
  function UniqueSubjects(sets: seq<Api.QuestionSet>): (r: seq<string>)
    ensures "" !in r
  {
    Filter(Dedup(Subjects(sets)), s => s != "")
  }

  /**
   * The subject list has no repeats and no empty subject, holds every non-empty subject, and
   * lists the subjects in the order they first appear.
   */
  lemma UniqueSubjectsSpec(sets: seq<Api.QuestionSet>)
    ensures NoDups(UniqueSubjects(sets))
    ensures forall s :: s in UniqueSubjects(sets) <==> s != "" && exists i :: 0 <= i < |sets| && sets[i].subject == s
    ensures InFirstOccurrenceOrder(UniqueSubjects(sets), Subjects(sets))
  {
    var d := Dedup(Subjects(sets));
    assert IsSubsequence(UniqueSubjects(sets), d) by {
      FilterKeeps(d, s => s != "");
    }
    assert NoDups(UniqueSubjects(sets)) by {
      SubsequenceNoDups(UniqueSubjects(sets), d);
    }
    assert InFirstOccurrenceOrder(UniqueSubjects(sets), Subjects(sets)) by {
      DedupOrder(Subjects(sets));
      SubsequenceKeepsOrder(UniqueSubjects(sets), d, Subjects(sets));
    }
    forall s | s != "" && exists i :: 0 <= i < |sets| && sets[i].subject == s
      ensures s in UniqueSubjects(sets)
    {
      var i :| 0 <= i < |sets| && sets[i].subject == s;
      assert Subjects(sets)[i] == s;
    }
  }

  /** The question-set type codes the badge knows, and their labels. */
  const SetTypeCodes: seq<string> := ["MULTIPLE_CHOICE", "TRUE_FALSE", "MULTIPLE_RESPONSE", "MATCHING", "COMPLETION", "FILL_IN_BLANK", "ESSAY"]
  const SetTypeLabels: seq<string> := ["Trắc nghiệm", "Đúng/Sai", "Nhiều lựa chọn", "Ghép đôi", "Điền khuyết", "Điền từ", "Tự luận"]

  /** The library's `formatQuestionType`: each known code has a label; anything else is shown as is. */
  function FormatSetType(t: string): (r: string)
    ensures forall i :: 0 <= i < |SetTypeCodes| && t == SetTypeCodes[i] ==> r == SetTypeLabels[i]
    ensures t !in SetTypeCodes ==> r == t
  {
    match t
    case "MULTIPLE_CHOICE" => "Trắc nghiệm"
    case "TRUE_FALSE" => "Đúng/Sai"
    case "MULTIPLE_RESPONSE" => "Nhiều lựa chọn"
    case "MATCHING" => "Ghép đôi"
    case "COMPLETION" => "Điền khuyết"
    case "FILL_IN_BLANK" => "Điền từ"
    case "ESSAY" => "Tự luận"
    case _ => t
  }

  /** The four badge colour schemes of `getDifficultyColor`. */
  datatype Tint = Green | Yellow | Red | Gray

  /** The four markers of `getDifficultyIcon`. */
  datatype Marker = GreenCircle | YellowCircle | RedCircle | WhiteCircle

  function DifficultyTint(d: string): (r: Tint)
    ensures r == Green <==> d == "easy"
    ensures r == Yellow <==> d == "medium"
    ensures r == Red <==> d == "hard"
    ensures r == Gray <==> d != "easy" && d != "medium" && d != "hard"
  {
    match d
    case "easy" => Green
    case "medium" => Yellow
    case "hard" => Red
    case _ => Gray
  }

  function DifficultyMarker(d: string): (r: Marker)
    ensures r == GreenCircle <==> d == "easy"
    ensures r == YellowCircle <==> d == "medium"
    ensures r == RedCircle <==> d == "hard"
    ensures r == WhiteCircle <==> d != "easy" && d != "medium" && d != "hard"
  {
    match d
    case "easy" => GreenCircle
    case "medium" => YellowCircle
    case "hard" => RedCircle
    case _ => WhiteCircle
  }

  /** `quizSet.difficulty || 'medium'`: an absent or empty difficulty counts as medium. */
  function BadgeDifficulty(d: Option<string>): (r: string)
    ensures d.Some? && d.value != "" ==> r == d.value
    ensures d.None? || d.value == "" ==> r == "medium"
  {
    if d.Some? && d.value != "" then d.value else "medium"
  }

  /** A set with no usable difficulty gets the medium badge, colour and marker alike. */
  lemma MissingDifficultyIsMedium(d: Option<string>)
    requires d.None? || d.value == ""
    ensures DifficultyTint(BadgeDifficulty(d)) == Yellow && DifficultyMarker(BadgeDifficulty(d)) == YellowCircle
  {
  }

  /**
   * How the detail request `getQuestionSet` ends: it throws, it answers without success or
   * without data, or it delivers the set.
   */
  datatype DetailResponse = Threw | Unsuccessful | Delivered(detail: Api.QuestionSet)

  /** The three messages `handlePractice` can stop with. */
  const DetailUnavailable := "Không thể tải chi tiết bộ câu hỏi"
  const NoQuestions := "Bộ câu hỏi không có câu hỏi nào"
  const DetailFailed := "Có lỗi xảy ra khi tải chi tiết bộ câu hỏi"

  /**
   * `handlePractice` after the detail request: a thrown request lands in `catch`, an
   * unsuccessful answer or a set without questions stops with its message; otherwise the
   * converted questions go to practice.
   */
  function StartPractice(response: DetailResponse): (r: Result<seq<Question>, string>)
    ensures response == Threw ==> r == Err(DetailFailed)
    ensures response == Unsuccessful ==> r == Err(DetailUnavailable)
    ensures response.Delivered? && |response.detail.questions| == 0 ==> r == Err(NoQuestions)
    ensures r.Ok? <==> response.Delivered? && |response.detail.questions| > 0
    ensures r.Ok? ==> r.value == ToPractice(response.detail.questions) && |r.value| == |response.detail.questions| > 0
  {
    match response
    case Threw => Err(DetailFailed)
    case Unsuccessful => Err(DetailUnavailable)
    case Delivered(qs) => if |qs.questions| == 0 then Err(NoQuestions) else Ok(ToPractice(qs.questions))
  }

  /** The library page's list state. */
  class LibraryPage {
    var quizSets: seq<Api.QuestionSet>
    var filteredQuizSets: seq<Api.QuestionSet>
    var searchTerm: string
    var filterDifficulty: string
    var filterSubject: string
    var currentPage: nat

    /** The listed sets are the filter of the stored ones, and the page number is within range. */
    ghost predicate Valid()
      reads this
    {
      && filteredQuizSets == Filtered(quizSets, searchTerm, filterDifficulty, filterSubject)
      && 1 <= currentPage
      && (TotalPages(|filteredQuizSets|) >= 1 ==> currentPage <= TotalPages(|filteredQuizSets|))
    }

    /** The page before the load: nothing stored, no search, both selectors on `'all'`, page 1. */
    constructor ()
      ensures Valid()
      ensures quizSets == [] && filteredQuizSets == [] && searchTerm == ""
      ensures filterDifficulty == "all" && filterSubject == "all" && currentPage == 1
    {
      quizSets := [];
      filteredQuizSets := [];
      searchTerm := "";
      filterDifficulty := "all";
      filterSubject := "all";
      currentPage := 1;
    }

    /** The sets on the current page. */
    function CurrentQuizSets(): (r: seq<Api.QuestionSet>)
      reads this
      requires Valid()
      ensures |r| <= PageSize
      ensures filteredQuizSets != [] ==> r != []
    {
      Page(filteredQuizSets, currentPage)
    }

    /**
     * The filter effect: narrows the stored sets by each active stage in turn and goes back to
     * page 1. The result is the list of sets passing every filter.
     */
    method ApplyFilters()
      modifies this`filteredQuizSets, this`currentPage
      ensures filteredQuizSets == Filtered(quizSets, searchTerm, filterDifficulty, filterSubject)
      ensures currentPage == 1
      ensures Valid()
    {
      var term, difficulty, subject := searchTerm, filterDifficulty, filterSubject;
      var bySearch := qs => MatchesSearch(qs, term);
      var byDifficulty := qs => MatchesDifficulty(qs, difficulty);
      var bySubject := qs => MatchesSubject(qs, subject);
      ghost var upToSearch := qs => MatchesSearch(qs, term);
      ghost var upToDifficulty := qs => MatchesSearch(qs, term) && MatchesDifficulty(qs, difficulty);
      ghost var upToSubject := qs => PassesFilters(qs, term, difficulty, subject);

      var filtered := quizSets;
      if term != "" {
        filtered := Filter(filtered, bySearch);
      } else {
        assert filtered == Filter(quizSets, upToSearch) by {
          assert Lower(term) == "";
          forall qs: Api.QuestionSet ensures upToSearch(qs) {
            ContainsEmpty(Lower(qs.title));
          }
          FilterAll(quizSets, upToSearch);
        }
      }
      assert filtered == Filter(quizSets, upToSearch);

      if difficulty != "all" {
        filtered := Filter(filtered, byDifficulty);
        assert filtered == Filter(quizSets, upToDifficulty) by {
          FilterFuse(quizSets, upToSearch, byDifficulty, upToDifficulty);
        }
      } else {
        assert filtered == Filter(quizSets, upToDifficulty) by {
          FilterExt(quizSets, upToSearch, upToDifficulty);
        }
      }

      if subject != "all" {
        filtered := Filter(filtered, bySubject);
        assert filtered == Filter(quizSets, upToSubject) by {
          FilterFuse(quizSets, upToDifficulty, bySubject, upToSubject);
        }
      } else {
        assert filtered == Filter(quizSets, upToSubject) by {
          FilterExt(quizSets, upToDifficulty, upToSubject);
        }
      }
      FilteredBy(quizSets, term, difficulty, subject, upToSubject);

      filteredQuizSets := filtered;
      currentPage := 1;
    }

    /** `loadQuizSets`: a successful response replaces the stored sets, and the filter effect follows. */
    method LoadQuizSets(response: Option<seq<Api.QuestionSet>>)
      requires Valid()
      modifies this`quizSets, this`filteredQuizSets, this`currentPage
      ensures Valid()
      ensures response.Some? ==> quizSets == response.value && currentPage == 1
      ensures response.None? ==>
        quizSets == old(quizSets) && filteredQuizSets == old(filteredQuizSets) && currentPage == old(currentPage)
    {
      if response.Some? {
        quizSets := response.value;
        filteredQuizSets := response.value;
        ApplyFilters();
      }
    }

    /** Typing in the search box. */
    method SetSearchTerm(term: string)
      modifies this`searchTerm, this`filteredQuizSets, this`currentPage
      ensures Valid() && searchTerm == term && currentPage == 1
    {
      searchTerm := term;
      ApplyFilters();
    }

    /** Choosing a difficulty. */
    method SetFilterDifficulty(difficulty: string)
      modifies this`filterDifficulty, this`filteredQuizSets, this`currentPage
      ensures Valid() && filterDifficulty == difficulty && currentPage == 1
    {
      filterDifficulty := difficulty;
      ApplyFilters();
    }

    /** Choosing a subject. */
    method SetFilterSubject(subject: string)
      modifies this`filterSubject, this`filteredQuizSets, this`currentPage
      ensures Valid() && filterSubject == subject && currentPage == 1
    {
      filterSubject := subject;
      ApplyFilters();
    }

    /** `goToPage`: the requested page, clamped to `1..totalPages`. */
    method GoToPage(p: int)
      requires Valid()
      modifies this`currentPage
      ensures Valid()
      ensures currentPage == ClampPage(p, TotalPages(|filteredQuizSets|))
    {
      currentPage := ClampPage(p, TotalPages(|filteredQuizSets|));
    }

    /**
     * `handleDeleteQuizSet` once the service has answered: on success the set leaves both lists
     * (and the filter effect, triggered by the stored list, recomputes the same listed sets);
     * on failure nothing changes.
     */
    method HandleDeleteQuizSet(id: string, success: bool)
      requires Valid()
      modifies this`quizSets, this`filteredQuizSets, this`currentPage
      ensures Valid()
      ensures success ==>
        && quizSets == RemoveId(old(quizSets), id)
        && filteredQuizSets == RemoveId(old(filteredQuizSets), id)
        && currentPage == 1
      ensures !success ==>
        quizSets == old(quizSets) && filteredQuizSets == old(filteredQuizSets) && currentPage == old(currentPage)
    {
      if success {
        var updated := RemoveId(quizSets, id);
        DeleteCommutesWithFilter(quizSets, id, searchTerm, filterDifficulty, filterSubject);
        quizSets := updated;
        filteredQuizSets := RemoveId(filteredQuizSets, id);
        ApplyFilters();
      }
    }
  }
}
