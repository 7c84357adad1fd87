/** The instructions an elevator subsystem gives its elevator. */
module Instructions {
  datatype Instruction = MOVE_UP | MOVE_DOWN | STOP | CONTINUE | IDLE
}
