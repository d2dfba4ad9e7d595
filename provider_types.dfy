/** The enumerations declared by RgbdImageProvider and shared by both image
    providers, the controller and the layout codec, together with the value
    a provider hands to its camera when its animation clock asks for a move. */
module ProviderTypes {

  datatype MediaType = Image | Video

  /** How the RGB and depth halves are laid out in the source texture, or
      whether they come from two separate files. */
  datatype ImageArrangement = LR | RL | TB | BT | Separate

  /** The arrangement's own name, which the providers' shader names end in. */
  function ArrangementName(a: ImageArrangement): string
  {
    match a
    case LR => "LR"
    case RL => "RL"
    case TB => "TB"
    case BT => "BT"
    case Separate => "Separate"
  }

  /** Appending different arrangement names to the same prefix gives
      different strings: the names already differ in their first letter. */
  lemma ArrangementNamesDistinct(prefix: string, a: ImageArrangement, b: ImageArrangement)
    ensures prefix + ArrangementName(a) == prefix + ArrangementName(b) <==> a == b
  {
    if a != b {
      assert (prefix + ArrangementName(a))[|prefix|] == ArrangementName(a)[0];
      assert (prefix + ArrangementName(b))[|prefix|] == ArrangementName(b)[0];
    }
  }

  /** Whether bright depth pixels are near (FrontPositive) or far. */
  datatype ZAxisOrientation = FrontPositive | FrontNegative

  /** The pose a camera animation starts from or moves to. */
  datatype CameraPosition = Initial | Current | Random

  datatype ProviderEvent = StartFadeIn | StartFadeOut | OneCycleOfSlideShowEnded

  /** A call of one of the provider's camera hooks (`ResetCamera`, `MoveCamera`,
      `PrepareCameraMoving`) made by the shared animation clock, which the
      concrete provider carries out on its own camera. */
  datatype CameraHook = NoHook | Reset | Move(ratio: real) | Prepare(from: CameraPosition, to: CameraPosition)

  /** Three independent `Random.Range` draws, each given as a unit sample,
      enough to choose one random camera pose. */
  datatype Draw = Draw(u1: real, u2: real, u3: real) {
    predicate Valid()
    {
      0.0 <= u1 <= 1.0 && 0.0 <= u2 <= 1.0 && 0.0 <= u3 <= 1.0
    }
  }
}
