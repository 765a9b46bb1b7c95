/** The card panel: the widgets update_cards leaves behind for the faces of
    one frame. */
module Cards {
  import Detection

  /** A widget of the card panel: the "No faces detected" label or a card. */
  datatype Widget = Placeholder | FaceCard(card: Detection.Card)

  /** The panel after a rebuild. */
  function Widgets(faces: seq<Detection.Card>): seq<Widget>
  {
    if faces == [] then [Placeholder]
    else seq(|faces|, i requires 0 <= i < |faces| => FaceCard(faces[i]))
  }

  /** The rebuilt panel holds exactly one placeholder when there are no
      faces, otherwise one card per face, in order, and no placeholder. */
  lemma WidgetsShape(faces: seq<Detection.Card>)
    ensures |Widgets(faces)| == if faces == [] then 1 else |faces|
    ensures Placeholder in Widgets(faces) <==> faces == []
    ensures forall i :: 0 <= i < |faces| ==> Widgets(faces)[i] == FaceCard(faces[i])
  {
  }
}
