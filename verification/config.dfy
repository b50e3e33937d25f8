/** The constants of config.py that the queue and the worker consult. */
module Config {

  /** Config.USERS_DIR: the directory holding one sub-directory per user. */
  const UsersDir: string := "data/users"

  /** Config.AUDIO_QUALITIES, in the order the list declares them. */
  const AudioQualities: seq<string> := ["64k", "128k", "192k", "256k", "320k"]

  /** Config.VIDEO_QUALITIES, in the order the list declares them. */
  const VideoQualities: seq<string> := ["144p", "240p", "360p", "480p", "720p", "1080p", "1440p", "2160p"]

  /** Config.DEFAULT_AUDIO_QUALITY */
  const DefaultAudioQuality: string := "192k"

  /** Config.DEFAULT_VIDEO_QUALITY */
  const DefaultVideoQuality: string := "720p"
}
