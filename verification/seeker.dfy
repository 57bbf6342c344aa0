/**
 * The seeker app's game state: the questions used per card type, the
 * question being placed on the map, the dialog on screen, and the markers
 * and shaded layers on the map.
 */
module Seeker {
  import opened Wrappers
  import opened Distance
  import opened Shapes
  import opened Shading

  /** How many cards of each type the seeker holds. */
  function CardCount(t: QuestionType): nat {
    match t
    case Matching => 5
    case Radar => 5
    case Thermometer => 2
    case Photo => 9
  }

  /** The distance tiles shown on the thermometer card. */
  const ThermometerTiles: seq<string> := ["100m", "200m", "500m"]

  /** The number shown on a card: its count less the questions of its type already used. */
  function Remaining(t: QuestionType, used: seq<Question>): (r: int)
    ensures r <= CardCount(t)
    ensures r >= 0 <==> |used| <= CardCount(t)
  {
    CardCount(t) - |used|
  }

  /**
   * `used.some(q => q.details === details)`: the questions are tried from the
   * first on, and the test holds exactly when one of them has these details.
   */
  function AlreadyUsed(used: seq<Question>, details: string): (b: bool)
    ensures b <==> exists i :: 0 <= i < |used| && used[i].details == details
  {
    if used == [] then false
    else if used[0].details == details then true
    else
      var rest := AlreadyUsed(used[1..], details);
      assert forall i :: 1 <= i < |used| ==> used[i] == used[1..][i - 1];
      rest
  }

  /** Each tile can be used once, so the thermometer card can be asked three times against a count of two. */
  lemma ThermometerCountCanGoNegative(qs: seq<Question>)
    requires |qs| == |ThermometerTiles|
    requires forall i :: 0 <= i < |qs| ==> qs[i].details == ThermometerTiles[i]
    ensures forall i :: 0 <= i < |qs| ==> !AlreadyUsed(qs[..i], ThermometerTiles[i])
    ensures Remaining(Thermometer, qs) == -1
  {
    forall i | 0 <= i < |qs| ensures !AlreadyUsed(qs[..i], ThermometerTiles[i]) {
      forall j | 0 <= j < i ensures qs[..i][j].details != ThermometerTiles[i] {
        assert ThermometerTiles[j] != ThermometerTiles[i];
      }
    }
  }

  datatype DialogAction = View | Answer

  /** What the modal shows: `modalContent` of the source. */
  datatype Modal =
    | NoModal
    | AnswerString              // the bare string 'answer' set for radar, which no dialog renders
    | Dialog(qtype: QuestionType, action: DialogAction)
    | ManualShadeDialog

  /** The set of card types, each of which keeps a list of used questions. */
  const AllTypes: set<QuestionType> := {Matching, Radar, Thermometer, Photo}

  /** No question of any type used yet. */
  function NoneUsed(): (u: map<QuestionType, seq<Question>>)
    ensures forall t: QuestionType :: t in u && u[t] == []
  {
    var u := map[Matching := [], Radar := [], Thermometer := [], Photo := []];
    assert forall t: QuestionType :: t in u by {
      forall t: QuestionType ensures t in u {
        assert t.Matching? || t.Radar? || t.Thermometer? || t.Photo?;
      }
    }
    u
  }

  /**
   * The markers a question puts on the map: one at its location and, for a
   * thermometer, one at its starting point; none without a location.
   */
  function MarkersFor(q: Question): (ms: seq<LatLng>)
    ensures q.location.None? <==> ms == []
    ensures |ms| <= 2 && (ms != [] ==> ms[0] == q.location.value)
    ensures |ms| == 2 <==> q.location.Some? && q.qtype == Thermometer && q.startLocation.Some?
  {
    if q.location.None? then []
    else [q.location.value] + (if q.qtype == Thermometer && q.startLocation.Some? then [q.startLocation.value] else [])
  }

  class SeekerApp {
    var gameStarted: bool
    var used: map<QuestionType, seq<Question>>
    var showModal: bool
    var modal: Modal
    var selectedPoint: Option<LatLng>
    var pendingQuestion: Option<Question>
    var activeType: Option<QuestionType>
    var selectedDetails: Option<string>
    var startPoint: Option<LatLng>
    /** Where the question markers stand, in the order they were added. */
    var markers: seq<LatLng>
    /** The shaded layers, in the order they were added. */
    var shaded: seq<Shape>

    /**
     * Every card type has its list, and every recorded question is answered
     * and filed under its own type.
     */
    ghost predicate Valid()
      reads this
    {
      (forall t: QuestionType :: t in used) &&
      forall t, i :: t in used && 0 <= i < |used[t]| ==> used[t][i].qtype == t && used[t][i].answered
    }

    /** The remaining count shown on card `t`. */
    function RemainingCount(t: QuestionType): int
      reads this
      requires Valid()
    {
      Remaining(t, used[t])
    }

    constructor()
      ensures Valid()
      ensures !gameStarted && !showModal && modal == NoModal
      ensures forall t :: t in AllTypes ==> used[t] == []
      ensures selectedPoint == None && pendingQuestion == None && activeType == None
      ensures selectedDetails == None && startPoint == None
      ensures markers == [] && shaded == []
    {
      gameStarted := false;
      used := NoneUsed();
      showModal, modal := false, NoModal;
      selectedPoint, pendingQuestion, activeType := None, None, None;
      selectedDetails, startPoint := None, None;
      markers, shaded := [], [];
    }

    /** The start screen's button. */
    method StartGame()
      modifies this
      ensures gameStarted
      ensures used == old(used) && showModal == old(showModal) && modal == old(modal)
      ensures selectedPoint == old(selectedPoint) && pendingQuestion == old(pendingQuestion)
      ensures activeType == old(activeType) && selectedDetails == old(selectedDetails) && startPoint == old(startPoint)
      ensures markers == old(markers) && shaded == old(shaded)
    {
      gameStarted := true;
    }

    /** Drops the question being placed. */
    method CancelSelection()
      modifies this
      ensures activeType == None && selectedDetails == None && startPoint == None && selectedPoint == None
      ensures gameStarted == old(gameStarted) && used == old(used)
      ensures showModal == old(showModal) && modal == old(modal) && pendingQuestion == old(pendingQuestion)
      ensures markers == old(markers) && shaded == old(shaded)
    {
      activeType, selectedDetails, startPoint, selectedPoint := None, None, None, None;
    }

    /**
     * Picks a question from a card. A question already used does nothing;
     * a photo question opens the photo list; any other becomes the question
     * to place on the map, with no point chosen yet.
     */
    method UseQuestion(t: QuestionType, details: string)
      requires Valid()
      modifies this
      ensures Valid()
      ensures gameStarted == old(gameStarted) && used == old(used)
      ensures pendingQuestion == old(pendingQuestion) && markers == old(markers) && shaded == old(shaded)
      ensures AlreadyUsed(old(used[t]), details) ==>
        showModal == old(showModal) && modal == old(modal) && activeType == old(activeType) &&
        selectedDetails == old(selectedDetails) && selectedPoint == old(selectedPoint) && startPoint == old(startPoint)
      ensures !AlreadyUsed(old(used[t]), details) && t == Photo ==>
        activeType == Some(Photo) && showModal && modal == Dialog(Photo, View) &&
        selectedDetails == old(selectedDetails) && selectedPoint == old(selectedPoint) && startPoint == old(startPoint)
      ensures !AlreadyUsed(old(used[t]), details) && t != Photo ==>
        activeType == Some(t) && selectedDetails == Some(details) && selectedPoint == None && startPoint == None &&
        showModal == old(showModal) && modal == old(modal)
    {
      if AlreadyUsed(used[t], details) {
        return;
      }
      if t == Photo {
        activeType := Some(Photo);
        showModal := true;
        modal := Dialog(Photo, View);
        return;
      }
      activeType := Some(t);
      selectedDetails := Some(details);
      selectedPoint := None;
      startPoint := None;
    }

    /**
     * A click on the map while a question is being placed. Radar records a
     * pending, unanswered question at the click and drops the selection;
     * the first thermometer click sets the starting point and the second the
     * moved-to point; any other type takes the click as its location. The
     * last two open the answer dialog.
     */
    method HandleMapClick(p: LatLng)
      requires Valid()
      modifies this
      ensures Valid()
      ensures gameStarted == old(gameStarted) && used == old(used)
      ensures markers == old(markers) && shaded == old(shaded)
      ensures old(activeType).None? || old(selectedDetails).None? || old(selectedDetails) == Some("") ==>
        showModal == old(showModal) && modal == old(modal) && pendingQuestion == old(pendingQuestion) &&
        activeType == old(activeType) && selectedDetails == old(selectedDetails) &&
        selectedPoint == old(selectedPoint) && startPoint == old(startPoint)
      ensures old(activeType) == Some(Radar) && old(selectedDetails).Some? && old(selectedDetails) != Some("") ==>
        pendingQuestion == Some(Question(Radar, old(selectedDetails).value, Some(p), None, false, "")) &&
        showModal && modal == AnswerString &&
        activeType == None && selectedDetails == None && selectedPoint == None && startPoint == None
      ensures old(activeType) == Some(Thermometer) && old(selectedDetails).Some? && old(selectedDetails) != Some("") &&
              old(startPoint).None? ==>
        startPoint == Some(p) &&
        showModal == old(showModal) && modal == old(modal) && pendingQuestion == old(pendingQuestion) &&
        activeType == old(activeType) && selectedDetails == old(selectedDetails) && selectedPoint == old(selectedPoint)
      ensures old(activeType).Some? && old(activeType) != Some(Radar) && old(selectedDetails).Some? &&
              old(selectedDetails) != Some("") && (old(activeType) == Some(Thermometer) ==> old(startPoint).Some?) ==>
        selectedPoint == Some(p) && showModal && modal == Dialog(old(activeType).value, Answer) &&
        pendingQuestion == old(pendingQuestion) && activeType == old(activeType) &&
        selectedDetails == old(selectedDetails) && startPoint == old(startPoint)
    {
      if activeType.None? || selectedDetails.None? || selectedDetails.value == "" {
        return;
      }
      var t := activeType.value;
      if t == Radar {
        pendingQuestion := Some(Question(Radar, selectedDetails.value, Some(p), None, false, ""));
        showModal := true;
        modal := AnswerString;
        CancelSelection();
        return;
      }
      if t == Thermometer && startPoint.None? {
        startPoint := Some(p);
        return;
      }
      selectedPoint := Some(p);
      showModal := true;
      modal := Dialog(t, Answer);
    }

    /** Records the photo question picked from the list; photo questions have no location. */
    method ConfirmPhotoQuestion(details: string)
      requires Valid()
      modifies this
      ensures Valid()
      ensures used == old(used)[Photo := old(used[Photo]) + [Question(Photo, details, None, None, true, "Sent")]]
      ensures !showModal && activeType == None
      ensures gameStarted == old(gameStarted) && modal == old(modal) && pendingQuestion == old(pendingQuestion)
      ensures selectedDetails == old(selectedDetails) && selectedPoint == old(selectedPoint) && startPoint == old(startPoint)
      ensures markers == old(markers) && shaded == old(shaded)
    {
      var q := Question(Photo, details, None, None, true, "Sent");
      used := used[Photo := used[Photo] + [q]];
      showModal := false;
      activeType := None;
    }

    /** A marker at the question's location, and one at a thermometer's starting point. */
    method AddQuestionMarker(q: Question)
      modifies this
      ensures markers == old(markers) + MarkersFor(q)
      ensures gameStarted == old(gameStarted) && used == old(used) && showModal == old(showModal) && modal == old(modal)
      ensures selectedPoint == old(selectedPoint) && pendingQuestion == old(pendingQuestion)
      ensures activeType == old(activeType) && selectedDetails == old(selectedDetails) && startPoint == old(startPoint)
      ensures shaded == old(shaded)
    {
      if q.location.None? {
        return;
      }
      markers := markers + [q.location.value];
      if q.qtype == Thermometer && q.startLocation.Some? {
        markers := markers + [q.startLocation.value];
      }
    }

    /**
     * Appends the shapes the question rules out; the donut's rings come from
     * the vertex loop. `thrown` reports that Leaflet threw on a NaN
     * coordinate or radius, which happens before any layer is added.
     */
    method AddShadedArea(q: Question, m: Maths) returns (thrown: bool)
      requires Placeable(q, m)
      modifies this
      ensures thrown <==> ShadingThrows(q, m)
      ensures shaded == old(shaded) + ShadesFor(q, m)
      ensures gameStarted == old(gameStarted) && used == old(used) && showModal == old(showModal) && modal == old(modal)
      ensures selectedPoint == old(selectedPoint) && pendingQuestion == old(pendingQuestion)
      ensures activeType == old(activeType) && selectedDetails == old(selectedDetails) && startPoint == old(startPoint)
      ensures markers == old(markers)
    {
      thrown := ShadingThrows(q, m);
      if q.location.None? || !q.answered {
        return;
      }
      var c := q.location.value;
      match q.qtype {
        case Radar =>
          var distance := DistanceToMeters(q.details);
          if distance.Num? {
            if q.answer == "No" {
              shaded := shaded + [Circle(c, distance.value, Shaded)];
            } else if q.answer == "Yes" {
              var outer, inner := BuildDonut(c, distance.value, m);
              shaded := shaded + [Polygon([outer, inner], Shaded)];
              shaded := shaded + [Circle(c, distance.value, Boundary)];
            }
          }
        case Matching =>
          shaded := shaded + MatchingShades(c, q.details, q.answer, m);
        case Thermometer =>
          if q.startLocation.Some? {
            shaded := shaded + ThermometerShadesAsWritten(q.startLocation.value, c, q.answer, m);
          }
        case Photo =>
      }
    }

    /**
     * Submits the answer to the question being placed. Without a chosen
     * point (and not radar) it reports an error and changes nothing;
     * otherwise it files the answered question under its type and adds its
     * markers and shading. When the shading throws (`thrown`), the handler
     * stops there and the dialog and the selection stay; otherwise it closes
     * the dialog and drops the selection.
     */
    method SubmitAnswer(answer: string, m: Maths) returns (error: bool, thrown: bool)
      requires Valid()
      requires activeType.Some? || selectedPoint.None?
      requires selectedPoint.Some? ==> m.cosDeg(selectedPoint.value.lat) > 0.0
      modifies this
      ensures Valid()
      ensures error <==> old(selectedPoint).None? && old(activeType) != Some(Radar)
      ensures error ==>
        used == old(used) && markers == old(markers) && shaded == old(shaded) &&
        showModal == old(showModal) && activeType == old(activeType) && selectedPoint == old(selectedPoint) &&
        selectedDetails == old(selectedDetails) && startPoint == old(startPoint)
      ensures !error ==>
        var t := old(activeType).value;
        var q := Question(t, if old(selectedDetails).Some? then old(selectedDetails).value else "",
                          old(selectedPoint), old(startPoint), true, answer);
        used == old(used)[t := old(used[t]) + [q]] &&
        shaded == old(shaded) + ShadesFor(q, m) &&
        markers == old(markers) + MarkersFor(q) &&
        (thrown <==> ShadingThrows(q, m)) &&
        (!thrown ==> !showModal && activeType == None && selectedDetails == None && selectedPoint == None && startPoint == None) &&
        (thrown ==> showModal == old(showModal) && activeType == old(activeType) && selectedDetails == old(selectedDetails) &&
                    selectedPoint == old(selectedPoint) && startPoint == old(startPoint))
      ensures error ==> !thrown
      ensures !error ==> forall t :: t in AllTypes ==>
        RemainingCount(t) == old(RemainingCount(t)) - (if Some(t) == old(activeType) then 1 else 0)
      ensures gameStarted == old(gameStarted) && modal == old(modal) && pendingQuestion == old(pendingQuestion)
    {
      if selectedPoint.None? && activeType != Some(Radar) {
        return true, false;
      }
      var t := activeType.value;
      var details := if selectedDetails.Some? then selectedDetails.value else "";
      var q := Question(t, details, selectedPoint, startPoint, true, answer);
      used := used[t := used[t] + [q]];
      AddQuestionMarker(q);
      thrown := AddShadedArea(q, m);
      if thrown {
        return false, true;
      }
      showModal := false;
      CancelSelection();
      return false, false;
    }

    /** Adds a circle of the chosen number of miles from the manual-shading dialog. */
    method HandleManualShade(center: LatLng, miles: real)
      modifies this
      ensures shaded == old(shaded) + [Circle(center, MilesToMeters(miles), ManualShade)]
      ensures !showModal
      ensures gameStarted == old(gameStarted) && used == old(used) && modal == old(modal)
      ensures selectedPoint == old(selectedPoint) && pendingQuestion == old(pendingQuestion)
      ensures activeType == old(activeType) && selectedDetails == old(selectedDetails) && startPoint == old(startPoint)
      ensures markers == old(markers)
    {
      shaded := shaded + [Circle(center, MilesToMeters(miles), ManualShade)];
      showModal := false;
    }

    /** Removes every shaded layer, once confirmed; the questions stay. */
    method ClearShadedAreas()
      modifies this
      ensures shaded == []
      ensures gameStarted == old(gameStarted) && used == old(used) && showModal == old(showModal) && modal == old(modal)
      ensures selectedPoint == old(selectedPoint) && pendingQuestion == old(pendingQuestion)
      ensures activeType == old(activeType) && selectedDetails == old(selectedDetails) && startPoint == old(startPoint)
      ensures markers == old(markers)
    {
      shaded := [];
    }

    /** Starts over, once confirmed: back to the start screen with no used questions, markers or shading. */
    method ResetGame()
      modifies this
      ensures Valid()
      ensures !gameStarted
      ensures forall t :: t in AllTypes ==> used[t] == [] && RemainingCount(t) == CardCount(t)
      ensures activeType == None && selectedDetails == None && selectedPoint == None && startPoint == None
      ensures markers == [] && shaded == []
      ensures showModal == old(showModal) && modal == old(modal) && pendingQuestion == old(pendingQuestion)
    {
      gameStarted := false;
      used := NoneUsed();
      CancelSelection();
      markers := [];
      shaded := [];
    }
  }
}
