/** The message a state hands to the one below it when it pops (src/lib.rs). */
module PopMessages {

  /** `PopMessage`: the answer of the OK/Back popup, or no message. */
  datatype PopMessage = OkBackPopupIsOk(ok: bool) | None
}
