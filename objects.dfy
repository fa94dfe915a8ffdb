/** The records shared by the detection scores and the pass/fail classifier.

    Both the `awml_evaluation` result class and the `perception_eval` result class
    are modelled by one record, `ObjectResult`: the label of the predicted object,
    whether the matcher judged its label correct, and the ground-truth object it was
    matched with, if any. Geometry, confidence and the matching itself happen outside
    this model. */
module Objects {

  datatype Option<+T> = None | Some(value: T)

  /** A category tag such as "car" or "pedestrian". */
  type Label = string

  /** A ground-truth annotation. `id` distinguishes two annotations with equal labels. */
  datatype GroundTruthObject = GroundTruthObject(id: nat, semanticLabel: Label)

  /** One predicted object together with the outcome of matching it. */
  datatype ObjectResult = ObjectResult(
    predictedLabel: Label,
    isLabelCorrect: bool,
    groundTruthObject: Option<GroundTruthObject>)

  datatype MatchingMode = CenterDistance | Iou3d | PlaneDistance

  /** The exceptions the core can raise.
      IndexOutOfRange: `object_results[0]` on an empty list.
      MissingAttribute: reading `map_config` of a `Map` whose construction returned early. */
  datatype Error = IndexOutOfRange | MissingAttribute

  datatype Result<+T> = Success(value: T) | Failure(error: Error)
}
