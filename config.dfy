/** The configuration constants at the top of FED_Code.py. */
module Config {
  /** Every frame is resized to NewWidth x NewHeight before it is analysed. */
  const NewWidth: nat := 1280
  const NewHeight: nat := 720

  /** The camera device indices that "Switch Camera" cycles through. */
  const CameraIds: seq<int> := [0, 1, 2]
  const DefaultCameraIndex: int := 0

  /** The face-detector backends offered by the backend menu. */
  /** The values the backend menu offers; the backend setter itself accepts any string. */
  const DetectorBackends: seq<string> := ["opencv", "ssd", "retinaface"]
  const DefaultBackend: string := "opencv"

  /** 1.5 seconds between two utterances of the same emotion, in milliseconds. */
  const SpeechCooldown: int := 1500
}
