/** Small value types shared by the range finder and the security camera models. */
module Common {

  /** An optional value: `None` where the Python code has `None`. */
  datatype Option<+T> = None | Some(value: T)

  /** Which behaviour a model component follows.
      `AsWritten` follows the repository's code as written, defects included, up to
      the abstractions listed in the README under "Left out" (exact reals for floats,
      alerts as delivered events);
      `Intended` follows the code's own doc comments (monitor.py:24, monitor.py:52-54,
      rangefinder.py:57-59) where they fix the behaviour: reading the cooldown as
      `now - last >= interval`, keeping the `trigger_interval` argument, keeping the
      non-negative samples and reporting an empty batch as an error. Its restart of the
      cooldown at the alert time is a chosen variant: the comments use "trigger" for
      activating the camera and point at a restart on activation instead. Every
      `Intended` member is a labelled variant, not the repository's behaviour. */
  datatype Variant = AsWritten | Intended
}
