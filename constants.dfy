/** Shared audio and game settings (rogue_talk/common/constants.py). */
module Constants {
  /** Samples per 20 ms frame at 48 kHz. */
  const FRAME_SIZE: nat := 960
  const SAMPLE_RATE: nat := 48000
  /** Tiles; beyond this distance a listener hears nothing. */
  const AUDIO_MAX_DISTANCE: nat := 10
  /** Tiles; within this distance the volume is full. */
  const AUDIO_FULL_VOLUME_DISTANCE: nat := 2
}
